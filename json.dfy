/**
 * The JSON text the data source writes: compact objects as `JSONStringer` emits them
 * for one row, and the hand-built `{ "__count": …, "results": [ … ] }` envelope.
 */
module Json {
  import opened Wrappers
  import opened Numerals

  /** A JSON scalar, as a column value read from a row bean. */
  datatype Value = Null | Bool(b: bool) | Number(n: int) | Text(s: string)

  /** A string between double quotes (the model does not escape). */
  function Quote(s: string): (r: string)
    ensures |r| == |s| + 2 && r[0] == '"' && r[|r| - 1] == '"' && r[1..|r| - 1] == s
  {
    "\"" + s + "\""
  }

  /** A scalar's JSON text. */
  function RenderValue(v: Value): (r: string)
    ensures |r| > 0
    ensures v.Text? <==> r[0] == '"'
  {
    match v
    case Null => "null"
    case Bool(b) => if b then "true" else "false"
    case Number(n) => IntToString(n)
    case Text(s) => Quote(s)
  }

  /** `parts` with `sep` between neighbours, built left to right as an appending loop does. */
  function Join(parts: seq<string>, sep: string): string
    decreases |parts|
  {
    if |parts| == 0 then ""
    else if |parts| == 1 then parts[0]
    else Join(parts[..|parts| - 1], sep) + sep + parts[|parts| - 1]
  }

  /** Appending one part to a separated list. */
  lemma JoinSnoc(parts: seq<string>, p: string, sep: string)
    ensures Join(parts + [p], sep) == if parts == [] then p else Join(parts, sep) + sep + p
  {
    assert (parts + [p])[..|parts|] == parts;
  }

  /** `sep` in front of every part: the tail of a separated list. */
  function Prefixed(parts: seq<string>, sep: string): string
    decreases |parts|
  {
    if |parts| == 0 then "" else sep + parts[0] + Prefixed(parts[1..], sep)
  }

  /**
   * Reference definition of a separated list: the first part, then each other
   * part preceded by `sep`. Nothing comes before the first part.
   */
  function Interleave(parts: seq<string>, sep: string): string {
    if |parts| == 0 then "" else parts[0] + Prefixed(parts[1..], sep)
  }

  lemma {:induction false} PrefixedSnoc(parts: seq<string>, p: string, sep: string)
    ensures Prefixed(parts + [p], sep) == Prefixed(parts, sep) + sep + p
    decreases |parts|
  {
    if |parts| == 0 {
      assert Prefixed([p], sep) == sep + p + Prefixed([], sep);
    } else {
      assert (parts + [p])[1..] == parts[1..] + [p];
      PrefixedSnoc(parts[1..], p, sep);
    }
  }

  /** The appending loop and the reference definition build the same text. */
  lemma {:induction false} JoinIsInterleave(parts: seq<string>, sep: string)
    ensures Join(parts, sep) == Interleave(parts, sep)
    decreases |parts|
  {
    if |parts| > 1 {
      var init := parts[..|parts| - 1];
      var last := parts[|parts| - 1];
      JoinIsInterleave(init, sep);
      assert parts == init + [last];
      assert parts[1..] == init[1..] + [last];
      PrefixedSnoc(init[1..], last, sep);
    } else if |parts| == 1 {
      assert parts[1..] == [];
    }
  }

  /** No separator trails: a non-empty list ends with its last part. */
  lemma JoinEndsWithLast(parts: seq<string>, sep: string)
    requires |parts| > 0
    ensures var j := Join(parts, sep); var last := parts[|parts| - 1];
      |last| <= |j| && j[|j| - |last|..] == last
  {
  }

  /** No separator leads: a non-empty list starts with its first part. */
  lemma JoinStartsWithFirst(parts: seq<string>, sep: string)
    requires |parts| > 0
    ensures var j := Join(parts, sep); |parts[0]| <= |j| && j[..|parts[0]|] == parts[0]
  {
    JoinIsInterleave(parts, sep);
  }

  /** The text of one member, `"key":value`. */
  function MemberText(key: string, v: Value): string {
    Quote(key) + ":" + RenderValue(v)
  }

  function MemberTexts(members: seq<(string, Value)>): (r: seq<string>)
    ensures |r| == |members|
    ensures forall i :: 0 <= i < |members| ==> r[i] == MemberText(members[i].0, members[i].1)
  {
    seq(|members|, i requires 0 <= i < |members| => MemberText(members[i].0, members[i].1))
  }

  lemma MemberTextsSnoc(members: seq<(string, Value)>, key: string, v: Value)
    ensures MemberTexts(members + [(key, v)]) == MemberTexts(members) + [MemberText(key, v)]
  {
  }

  lemma Assoc(a: string, b: string, c: string)
    ensures (a + b) + c == a + (b + c)
  {
  }

  /** One `key(..).value(..)` step of a stringer that has written an object's opening and `members`. */
  lemma StringerStep(text: string, members: seq<(string, Value)>, key: string, v: Value)
    requires text == "{" + Join(MemberTexts(members), ",")
    ensures (if members != [] then text + "," else text) + Quote(key) + ":" + RenderValue(v)
      == "{" + Join(MemberTexts(members + [(key, v)]), ",")
  {
    var m := MemberText(key, v);
    var pre := if members != [] then text + "," else text;
    var body := if members != [] then Join(MemberTexts(members), ",") + "," else "";
    MemberTextsSnoc(members, key, v);
    JoinSnoc(MemberTexts(members), m, ",");
    assert Join(MemberTexts(members + [(key, v)]), ",") == body + m;
    if members != [] {
      Assoc("{", Join(MemberTexts(members), ","), ",");
    }
    assert pre == "{" + body;
    Assoc(pre, Quote(key), ":");
    Assoc(pre, Quote(key) + ":", RenderValue(v));
    Assoc("{", body, m);
  }

  /** The compact object `{"k1":v1,"k2":v2}` a `JSONStringer` produces for these members. */
  function ObjectText(members: seq<(string, Value)>): (r: string)
    ensures |r| >= 2 && r[0] == '{' && r[|r| - 1] == '}'
    ensures members == [] ==> r == "{}"
  {
    "{" + Join(MemberTexts(members), ",") + "}"
  }

  const CountPrefix: string := "{ \"__count\": "
  const ResultsInfix: string := ", \"results\": [ "
  const RowSeparator: string := ", "
  const EnvelopeSuffix: string := " ] }"

  /** `{ "__count": <size>, "results": [ row, row, … ] }`, as the handler builds it. */
  function EnvelopeText(size: int, rows: seq<string>): string {
    CountPrefix + IntToString(size) + ResultsInfix + Join(rows, RowSeparator) + EnvelopeSuffix
  }

  /** With no rows the results list is two spaces between the brackets. */
  lemma EmptyEnvelope(size: int)
    ensures EnvelopeText(size, []) == "{ \"__count\": " + IntToString(size) + ", \"results\": [  ] }"
  {
    var d := IntToString(size);
    assert EnvelopeText(size, []) == CountPrefix + d + ResultsInfix + "" + EnvelopeSuffix;
    assert ResultsInfix + "" + EnvelopeSuffix == ", \"results\": [  ] }";
    Assoc(CountPrefix + d, ResultsInfix, "");
    Assoc(CountPrefix + d, ResultsInfix + "", EnvelopeSuffix);
  }

  /** The text the handler has written before its first row: the quoted names and the count. */
  lemma EnvelopeHeader(size: int)
    ensures "{ " + Quote("__count") + ": " + IntToString(size) + ", " + Quote("results") + ": " + "[ "
      == CountPrefix + IntToString(size) + ResultsInfix
  {
    var d := IntToString(size);
    assert "{ " + Quote("__count") + ": " == CountPrefix;
    assert ", " + Quote("results") + ": " + "[ " == ResultsInfix;
    Assoc(CountPrefix + d, ", ", Quote("results"));
    Assoc(CountPrefix + d, ", " + Quote("results"), ": ");
    Assoc(CountPrefix + d, ", " + Quote("results") + ": ", "[ ");
  }

  /** One more row written after `rows`, with a separator when it is not the first. */
  lemma AppendRow(header: string, builder: string, rows: seq<string>, row: string)
    requires builder == header + Join(rows, RowSeparator)
    ensures (if rows != [] then builder + ", " else builder) + row == header + Join(rows + [row], RowSeparator)
  {
    JoinSnoc(rows, row, RowSeparator);
  }

  /** The envelope in terms of the reference definition of a separated list. */
  lemma EnvelopeShape(size: int, rows: seq<string>)
    ensures EnvelopeText(size, rows)
      == CountPrefix + IntToString(size) + ResultsInfix + Interleave(rows, RowSeparator) + EnvelopeSuffix
  {
    JoinIsInterleave(rows, RowSeparator);
  }

  /** The part of `s` before the first `c` (all of `s` when `c` does not occur). */
  function TakeUntil(s: string, c: char): (r: string)
    ensures |r| <= |s| && r == s[..|r|] && c !in r
    ensures |r| < |s| ==> s[|r|] == c
  {
    if |s| == 0 || s[0] == c then "" else [s[0]] + TakeUntil(s[1..], c)
  }

  lemma {:induction false} TakeUntilAt(a: string, c: char, b: string)
    requires c !in a
    ensures TakeUntil(a + [c] + b, c) == a
    decreases |a|
  {
    if |a| > 0 {
      assert (a + [c] + b)[1..] == a[1..] + [c] + b;
      TakeUntilAt(a[1..], c, b);
    }
  }

  /** Reads the `__count` back out of an envelope: what a client of the grid sees. */
  function CountOf(text: string): Option<int> {
    if |CountPrefix| <= |text| && text[..|CountPrefix|] == CountPrefix then
      ParseInteger(TakeUntil(text[|CountPrefix|..], ','))
    else None
  }

  /** The count written into an envelope is the one read back out of it. */
  lemma CountRoundTrip(size: int, rows: seq<string>)
    ensures CountOf(EnvelopeText(size, rows)) == Some(size)
  {
    var digits := IntToString(size);
    var text := EnvelopeText(size, rows);
    var rest := ResultsInfix[1..] + Join(rows, RowSeparator) + EnvelopeSuffix;
    assert text == CountPrefix + (digits + [','] + rest);
    assert text[|CountPrefix|..] == digits + [','] + rest;
    assert forall i :: 0 <= i < |digits| ==> digits[i] != ',';
    TakeUntilAt(digits, ',', rest);
    ParseIntegerOfIntToString(size);
  }
}
