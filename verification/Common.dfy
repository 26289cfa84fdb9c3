/** Small things several modules share. */
module Common {

  datatype Option<+T> = None | Some(value: T)

  /** White space as `strings.TrimSpace` understands it. */
  predicate IsWhite(c: char) {
    || '\t' <= c <= '\r' || c == ' ' || c == '\U{0085}' || c == '\U{00A0}' || c == '\U{1680}'
    || '\U{2000}' <= c <= '\U{200A}' || c == '\U{2028}' || c == '\U{2029}' || c == '\U{202F}'
    || c == '\U{205F}' || c == '\U{3000}'
  }

  function TrimLeft(s: string): string {
    if s != "" && IsWhite(s[0]) then TrimLeft(s[1..]) else s
  }

  function TrimRight(s: string): string {
    if s != "" && IsWhite(s[|s| - 1]) then TrimRight(s[..|s| - 1]) else s
  }

  function TrimSpace(s: string): string {
    TrimRight(TrimLeft(s))
  }

  lemma {:induction false} TrimLeftMeans(s: string) returns (i: nat)
    ensures i <= |s| && TrimLeft(s) == s[i..] && (forall k | 0 <= k < i :: IsWhite(s[k]))
    ensures i < |s| ==> !IsWhite(s[i])
  {
    hide IsWhite;
    i := 0;
    if s != "" && IsWhite(s[0]) {
      var j := TrimLeftMeans(s[1..]);
      i := j + 1;
      assert s[1..][j..] == s[i..];
      assert forall k | 1 <= k < i :: s[k] == s[1..][k - 1];
    }
  }

  lemma {:induction false} TrimRightMeans(s: string) returns (j: nat)
    ensures j <= |s| && TrimRight(s) == s[..j] && (forall k | j <= k < |s| :: IsWhite(s[k]))
    ensures j > 0 ==> !IsWhite(s[j - 1])
  {
    hide IsWhite;
    j := |s|;
    if s != "" && IsWhite(s[|s| - 1]) {
      j := TrimRightMeans(s[..|s| - 1]);
    }
  }

  /** Trimming removes the white space at both ends, all of it and nothing else. */
  lemma TrimMeans(s: string) returns (i: nat, j: nat)
    ensures i <= j <= |s| && TrimSpace(s) == s[i..j]
    ensures forall k | 0 <= k < i || j <= k < |s| :: IsWhite(s[k])
    ensures i < j ==> !IsWhite(s[i]) && !IsWhite(s[j - 1])
    ensures TrimSpace(s) == "" <==> forall k | 0 <= k < |s| :: IsWhite(s[k])
  {
    hide IsWhite;
    i := TrimLeftMeans(s);
    var k := TrimRightMeans(s[i..]);
    j := i + k;
    assert s[i..][..k] == s[i..j];
    assert forall n | i <= n < |s| :: s[n] == s[i..][n - i];
  }

  /** No element occurs twice. */
  predicate Distinct<T(==)>(xs: seq<T>) {
    forall i, j | 0 <= i < j < |xs| :: xs[i] != xs[j]
  }

  lemma SubsetSize<T>(a: set<T>, b: set<T>)
    requires a <= b
    ensures |a| <= |b|
  {
    if a != {} {
      var x :| x in a;
      SubsetSize(a - {x}, b - {x});
    }
  }

  // ---------------------------------------------------------------- flattened blocks

  function Flatten<T>(blocks: seq<seq<T>>): seq<T> {
    if blocks == [] then [] else Flatten(blocks[..|blocks| - 1]) + blocks[|blocks| - 1]
  }

  /** Where the elements of block `b` start. */
  function Offset<T>(blocks: seq<seq<T>>, b: nat): nat
    requires b <= |blocks|
  {
    |Flatten(blocks[..b])|
  }

  lemma {:induction false} OffsetsGrow<T>(blocks: seq<seq<T>>, b: nat, c: nat)
    requires b < c <= |blocks|
    ensures Offset(blocks, b) + |blocks[b]| <= Offset(blocks, c)
    decreases c
  {
    assert blocks[..c][..c - 1] == blocks[..c - 1];
    if b < c - 1 {
      OffsetsGrow(blocks, b, c - 1);
    }
  }

  lemma {:induction false} FlattenAt<T>(blocks: seq<seq<T>>, b: nat, k: nat)
    requires b < |blocks| && k < |blocks[b]|
    ensures Offset(blocks, b) + k < |Flatten(blocks)|
    ensures Flatten(blocks)[Offset(blocks, b) + k] == blocks[b][k]
  {
    var n := |blocks| - 1;
    if b < n {
      FlattenAt(blocks[..n], b, k);
      assert blocks[..n][..b] == blocks[..b];
    }
  }

  /** Every position of the flattened list is a position of some block. */
  lemma {:induction false} BlockOf<T>(blocks: seq<seq<T>>, y: nat) returns (b: nat, k: nat)
    requires y < |Flatten(blocks)|
    ensures b < |blocks| && k < |blocks[b]| && y == Offset(blocks, b) + k && Flatten(blocks)[y] == blocks[b][k]
  {
    var n := |blocks| - 1;
    if y < |Flatten(blocks[..n])| {
      b, k := BlockOf(blocks[..n], y);
      assert blocks[..n][..b] == blocks[..b];
    } else {
      b, k := n, y - |Flatten(blocks[..n])|;
    }
  }

  lemma {:induction false} FlattenWithout<T>(blocks: seq<seq<T>>, x: T)
    requires forall b | 0 <= b < |blocks| :: multiset(blocks[b])[x] == 0
    ensures multiset(Flatten(blocks))[x] == 0
  {
    if blocks != [] {
      FlattenWithout(blocks[..|blocks| - 1], x);
    }
  }

  lemma {:induction false} FlattenWithOne<T>(blocks: seq<seq<T>>, x: T, b: nat)
    requires b < |blocks| && multiset(blocks[b])[x] == 1
    requires forall c | 0 <= c < |blocks| && c != b :: multiset(blocks[c])[x] == 0
    ensures multiset(Flatten(blocks))[x] == 1
  {
    var n := |blocks| - 1;
    if b == n {
      FlattenWithout(blocks[..n], x);
    } else {
      FlattenWithOne(blocks[..n], x, b);
    }
  }

  lemma CountTwice<T>(xs: seq<T>, i: nat, j: nat)
    requires i < j < |xs| && xs[i] == xs[j]
    ensures multiset(xs)[xs[i]] >= 2
  {
    assert xs == xs[..i + 1] + xs[i + 1..];
    assert xs[..i + 1][i] == xs[i] && xs[i + 1..][j - i - 1] == xs[j];
  }

  // ---------------------------------------------------------------- bounded memories

  /** Remember `x`, forgetting the oldest entry of a full memory. */
  function Remember<T>(memory: seq<T>, x: T, capacity: nat): seq<T> {
    (if memory != [] && |memory| >= capacity then memory[1..] else memory) + [x]
  }

  /** The values of the remembered entries, with the new one's added and the forgotten one's dropped. */
  function Recollect<K, V>(values: map<K, V>, memory: seq<K>, x: K, value: V, capacity: nat): map<K, V> {
    (if memory != [] && |memory| >= capacity then values - {memory[0]} else values)[x := value]
  }

  /** The memory is the most recent part of the log, as much of it as fits. */
  ghost predicate Recalls<T>(memory: seq<T>, log: seq<T>, capacity: nat) {
    && |memory| == (if |log| < capacity then |log| else capacity)
    && (forall i | 0 <= i < |memory| :: memory[i] == log[|log| - |memory| + i])
  }

  /** Equal entries of the log are further apart than the memory reaches. */
  ghost predicate SpacedOut<T>(log: seq<T>, capacity: nat) {
    forall i, j | 0 <= i < j < |log| && log[i] == log[j] :: j - i > capacity
  }

  lemma RememberRecalls<T>(memory: seq<T>, log: seq<T>, x: T, capacity: nat)
    requires capacity > 0 && Recalls(memory, log, capacity)
    ensures Recalls(Remember(memory, x, capacity), log + [x], capacity)
  {
  }

  lemma UnknownIsSpacedOut<T>(memory: seq<T>, log: seq<T>, x: T, capacity: nat)
    requires Recalls(memory, log, capacity) && SpacedOut(log, capacity) && x !in memory
    ensures SpacedOut(log + [x], capacity)
  {
    forall i | |log| - |memory| <= i < |log| ensures log[i] != x {
      assert memory[i - (|log| - |memory|)] == log[i];
    }
  }

  lemma SpacedOutIsDistinct<T>(memory: seq<T>, log: seq<T>, capacity: nat)
    requires Recalls(memory, log, capacity) && SpacedOut(log, capacity)
    ensures Distinct(memory)
  {
    forall i, j | 0 <= i < j < |memory| ensures memory[i] != memory[j] {
      var base := |log| - |memory|;
      assert memory[i] == log[base + i] && memory[j] == log[base + j];
    }
  }

  /** The values kept are those of the remembered entries. */
  lemma RecollectKeys<K, V>(values: map<K, V>, memory: seq<K>, x: K, value: V, capacity: nat)
    requires Distinct(memory) && x !in memory && forall k :: k in values <==> k in memory
    ensures forall k :: k in Recollect(values, memory, x, value, capacity) <==> k in Remember(memory, x, capacity)
  {
    if memory != [] && |memory| >= capacity {
      assert forall k :: k in memory <==> k == memory[0] || k in memory[1..];
    }
  }

  /** Each remembered entry keeps its value. */
  lemma RecollectValues<K, V>(values: map<K, V>, memory: seq<K>, chain: seq<V>, x: K, value: V, capacity: nat)
    requires capacity > 0 && |memory| <= capacity && |memory| <= |chain| && Distinct(memory) && x !in memory
    requires forall k :: k in values <==> k in memory
    requires forall i | 0 <= i < |memory| :: values[memory[i]] == chain[|chain| - |memory| + i]
    ensures var memory', values' := Remember(memory, x, capacity), Recollect(values, memory, x, value, capacity);
            && |memory'| <= |chain| + 1
            && forall i | 0 <= i < |memory'| ::
              memory'[i] in values' && values'[memory'[i]] == (chain + [value])[|chain| + 1 - |memory'| + i]
  {
    var memory', values' := Remember(memory, x, capacity), Recollect(values, memory, x, value, capacity);
    RecollectKeys(values, memory, x, value, capacity);
    var shift := |memory| + 1 - |memory'|;
    forall i | 0 <= i < |memory'|
      ensures memory'[i] in values' && values'[memory'[i]] == (chain + [value])[|chain| + 1 - |memory'| + i]
    {
      if i < |memory'| - 1 {
        assert memory'[i] == memory[i + shift];
      }
    }
  }

  // ---------------------------------------------------------------- decimal numbers

  function Decimal(n: nat): string {
    if n < 10 then [n as char + '0'] else Decimal(n / 10) + [(n % 10) as char + '0']
  }

  lemma {:induction false} DecimalInjective(i: nat, j: nat)
    requires Decimal(i) == Decimal(j)
    ensures i == j
  {
    if i >= 10 && j >= 10 {
      var m, n := Decimal(i), Decimal(j);
      assert m[..|m| - 1] == Decimal(i / 10) && n[..|n| - 1] == Decimal(j / 10);
      DecimalInjective(i / 10, j / 10);
      assert m[|m| - 1] == n[|n| - 1];
    } else if i >= 10 {
      DecimalNonEmpty(i / 10);
    } else if j >= 10 {
      DecimalNonEmpty(j / 10);
    }
  }

  lemma DecimalNonEmpty(n: nat)
    ensures Decimal(n) != ""
  {
  }
}
