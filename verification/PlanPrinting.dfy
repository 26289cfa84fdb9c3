/**
 Printing plan literals, and the round trip through the parser.
 */
module PlanPrinting {
  import opened PlanLiteral
  import opened PlanGrammar
  import opened PlanCorrectness

  /** A literal to be printed: fields in the order they are written. */
  datatype Doc =
    | DocText(text: string)
    | DocList(items: seq<Doc>)
    | DocObject(fields: seq<Field>)

  datatype Field = Field(key: string, doc: Doc)

  /** No object of the tree uses a key twice. */
  predicate DistinctKeys(d: Doc) {
    match d
    case DocText(_) => true
    case DocList(items) => forall i | 0 <= i < |items| :: DistinctKeys(items[i])
    case DocObject(fields) =>
      && (forall i | 0 <= i < |fields| :: DistinctKeys(fields[i].doc))
      && (forall i, j | 0 <= i < j < |fields| :: fields[i].key != fields[j].key)
  }

  function DocValue(d: Doc): Value
    decreases d, 1
  {
    match d
    case DocText(text) => Text(text)
    case DocList(items) => List(ItemValues(items))
    case DocObject(fields) => Object(FieldValues(fields, NO_FIELDS))
  }

  function ItemValues(items: seq<Doc>): (vs: seq<Value>)
    decreases items, 0
  {
    if items == [] then [] else [DocValue(items[0])] + ItemValues(items[1..])
  }

  function FieldValues(fields: seq<Field>, before: map<string, Value>): map<string, Value>
    decreases fields, 0
  {
    if fields == [] then before else FieldValues(fields[1..], before[fields[0].key := DocValue(fields[0].doc)])
  }

  // ---------------------------------------------------------------- the printed tree

  function PieceOf(c: char): Piece {
    if c == '"' || c == '\\' then Short(c) else if c == '\n' then Short('n') else Plain(c)
  }

  function PiecesOf(text: string): seq<Piece> {
    if text == "" then [] else [PieceOf(text[0])] + PiecesOf(text[1..])
  }

  function QuotedOf(text: string): Quoted {
    Quoted('"', PiecesOf(text))
  }

  /** The tree of a compact print: no blanks, double quotes, no trailing comma. */
  function SyntaxOf(d: Doc): Syntax
    decreases d, 1
  {
    match d
    case DocText(text) => StringSyntax("", QuotedOf(text))
    case DocList(items) => ArraySyntax("", ElementsOf(items))
    case DocObject(fields) => ObjectSyntax("", MembersOf(fields))
  }

  function ElementsOf(items: seq<Doc>): Elements
    decreases items, 0
  {
    if items == [] then NoElements("") else
    Element(SyntaxOf(items[0]), if |items| == 1 then EndElements("") else CommaElements("", ElementsOf(items[1..])))
  }

  function MembersOf(fields: seq<Field>): Members
    decreases fields, 0
  {
    if fields == [] then NoMembers("") else
    Member("", QuotedKey(QuotedOf(fields[0].key)), "", SyntaxOf(fields[0].doc),
           if |fields| == 1 then EndMembers("") else CommaMembers("", MembersOf(fields[1..])))
  }

  function Print(d: Doc): string {
    Spell(SyntaxOf(d))
  }

  // ---------------------------------------------------------------- its meaning

  lemma {:induction false} PiecesOfText(text: string)
    ensures GoodPieces(PiecesOf(text), '"') && PiecesMeaning(PiecesOf(text), '"') == text
  {
    if text != "" {
      PiecesOfText(text[1..]);
      assert PiecesOf(text)[1..] == PiecesOf(text[1..]);
    }
  }

  lemma {:induction false} PrintMeaning(d: Doc)
    requires DistinctKeys(d)
    ensures Good(SyntaxOf(d)) && Meaning(SyntaxOf(d)) == DocValue(d)
    decreases d, 1
  {
    match d
    case DocText(text) => PiecesOfText(text);
    case DocList(items) =>
      ElementsOfMeaning(items, []);
      assert [] + ItemValues(items) == ItemValues(items);
    case DocObject(fields) => MembersOfMeaning(fields, NO_FIELDS);
  }

  lemma {:induction false} ElementsOfMeaning(items: seq<Doc>, before: seq<Value>)
    requires forall i | 0 <= i < |items| :: DistinctKeys(items[i])
    ensures GoodElements(ElementsOf(items))
    ensures ElementsMeaning(ElementsOf(items), before) == before + ItemValues(items)
    decreases items, 0
  {
    if items != [] {
      PrintMeaning(items[0]);
      var v := DocValue(items[0]);
      assert before + ItemValues(items) == (before + [v]) + ItemValues(items[1..]);
      if |items| > 1 {
        ElementsOfMeaning(items[1..], before + [v]);
      }
    }
  }

  lemma {:induction false} MembersOfMeaning(fields: seq<Field>, before: map<string, Value>)
    requires forall i | 0 <= i < |fields| :: DistinctKeys(fields[i].doc) && fields[i].key !in before
    requires forall i, j | 0 <= i < j < |fields| :: fields[i].key != fields[j].key
    ensures GoodMembers(MembersOf(fields), before.Keys)
    ensures MembersMeaning(MembersOf(fields), before) == FieldValues(fields, before)
    decreases fields, 0
  {
    if fields != [] {
      var Field(key, d) := fields[0];
      PrintMeaning(d);
      PiecesOfText(key);
      var before' := before[key := DocValue(d)];
      assert before'.Keys == before.Keys + {key};
      if |fields| > 1 {
        MembersOfMeaning(fields[1..], before');
      }
    }
  }

  /** Round trip: a printed literal parses back to its value, consuming all of it. */
  lemma RoundTrip(d: Doc)
    requires DistinctKeys(d)
    ensures ValueAt(Print(d), 0) == Ok(DocValue(d), |Print(d)|)
    ensures ParseWhole(Print(d)) == Accepted(DocValue(d))
  {
    PrintMeaning(d);
    Complete(Print(d), 0, SyntaxOf(d));
    SpellingIsAccepted(Print(d), SyntaxOf(d), "") by {
      assert Print(d) == Spell(SyntaxOf(d)) + "";
    }
  }
}
