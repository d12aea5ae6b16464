/** What the dashboard derives from the scored table for display (app.py): the colour of a
    score in the detailed list and the numbered list of all descriptions in the expander. */
module Display {
  import opened Text
  import opened Records
  import opened Scoring
  import opened Ranking

  // ---------------------------------------------------------------------------------------
  // Score colour

  datatype Color = Green | Orange | Red

  /** Green above 70, orange above 40, red otherwise. */
  function ScoreColor(score: real): (c: Color)
    ensures c == Green <==> score > 70.0
    ensures c == Orange <==> 40.0 < score <= 70.0
    ensures c == Red <==> score <= 40.0
  {
    if score > 70.0 then Green else if score > 40.0 then Orange else Red
  }

  /** Orders the colours from red (0) to green (2). */
  function Warmth(c: Color): nat {
    match c
    case Red => 0
    case Orange => 1
    case Green => 2
  }

  /** A higher score never gets a colder colour. */
  lemma ColorMonotone(a: real, b: real)
    requires a <= b
    ensures Warmth(ScoreColor(a)) <= Warmth(ScoreColor(b))
  {
  }

  /** Down a ranked list the colours go from green through orange to red, never back. */
  lemma RankedColorsOrdered(s: seq<Scored>)
    requires SortedDesc(s)
    ensures forall i, j :: 0 <= i < j < |s| ==>
      Warmth(ScoreColor(s[i].score)) >= Warmth(ScoreColor(s[j].score))
  {
    forall i, j | 0 <= i < j < |s| ensures Warmth(ScoreColor(s[i].score)) >= Warmth(ScoreColor(s[j].score)) {
      ColorMonotone(s[j].score, s[i].score);
    }
  }

  // ---------------------------------------------------------------------------------------
  // The numbered list of descriptions

  /** `f"{i}. {desc}"`. */
  function NumberedLine(n: nat, d: string): (line: string) {
    DecimalString(n) + ". " + d
  }

  /** The descriptions of the table, in row order. */
  function Descriptions(vs: seq<Video>): (ds: seq<string>)
    ensures |ds| == |vs| && forall k :: 0 <= k < |vs| ==> ds[k] == vs[k].description
  {
    seq(|vs|, k requires 0 <= k < |vs| => vs[k].description)
  }

  /** The lines of the list, numbered from `first`. */
  function Numbered(ds: seq<string>, first: nat): (ls: seq<string>)
    ensures |ls| == |ds| && forall k :: 0 <= k < |ds| ==> ls[k] == NumberedLine(first + k, ds[k])
  {
    seq(|ds|, k requires 0 <= k < |ds| => NumberedLine(first + k, ds[k]))
  }

  /** Every line followed by a newline. */
  function Unlines(ls: seq<string>): (t: string) {
    if ls == [] then "" else ls[0] + "\n" + Unlines(ls[1..])
  }

  lemma {:induction false} UnlinesAppend(ls: seq<string>, l: string)
    ensures Unlines(ls + [l]) == Unlines(ls) + l + "\n"
  {
    if ls == [] {
      assert ls + [l] == [l];
    } else {
      assert (ls + [l])[0] == ls[0] && (ls + [l])[1..] == ls[1..] + [l];
      UnlinesAppend(ls[1..], l);
    }
  }

  /** The text of the expander: one numbered line per row of the table. */
  method DescriptionListing(vs: seq<Video>) returns (text: string)
    ensures text == Unlines(Numbered(Descriptions(vs), 1))
  {
    var ds := Descriptions(vs);
    text := "";
    var i := 0;
    while i < |ds|
      invariant 0 <= i <= |ds|
      invariant text == Unlines(Numbered(ds[..i], 1))
    {
      assert Numbered(ds[..i + 1], 1) == Numbered(ds[..i], 1) + [NumberedLine(i + 1, ds[i])];
      UnlinesAppend(Numbered(ds[..i], 1), NumberedLine(i + 1, ds[i]));
      text := text + DecimalString(i + 1) + ". " + ds[i] + "\n";
      i := i + 1;
    }
    assert ds[..i] == ds;
  }

  // ---------------------------------------------------------------------------------------
  // Reading the list back

  /** Position of the first newline of `t`, or `|t|` when there is none. */
  function FirstNewline(t: string): (k: nat)
    ensures k <= |t|
    ensures forall j :: 0 <= j < k ==> t[j] != '\n'
    ensures k < |t| ==> t[k] == '\n'
  {
    if t == [] || t[0] == '\n' then 0 else 1 + FirstNewline(t[1..])
  }

  /** The lines of `t`, each without its terminating newline. */
  function SplitLines(t: string): (ls: seq<string>)
    decreases |t|
  {
    if t == [] then []
    else
      var k := FirstNewline(t);
      if k == |t| then [t] else [t[..k]] + SplitLines(t[k + 1..])
  }

  predicate NoNewline(s: string) {
    forall j :: 0 <= j < |s| ==> s[j] != '\n'
  }

  lemma FirstNewlineAfter(l: string, rest: string)
    requires NoNewline(l)
    ensures FirstNewline(l + "\n" + rest) == |l|
  {
    var t := l + "\n" + rest;
    var k := FirstNewline(t);
    assert t[|l|] == '\n';
    assert forall j :: 0 <= j < |l| ==> t[j] == l[j];
  }

  /** Splitting the text of lines that hold no newline gives the lines back. */
  lemma {:induction false} SplitUnlines(ls: seq<string>)
    requires forall k :: 0 <= k < |ls| ==> NoNewline(ls[k])
    ensures SplitLines(Unlines(ls)) == ls
  {
    if ls != [] {
      var t := Unlines(ls);
      assert t == ls[0] + "\n" + Unlines(ls[1..]);
      FirstNewlineAfter(ls[0], Unlines(ls[1..]));
      assert t[..|ls[0]|] == ls[0];
      assert t[|ls[0]| + 1..] == Unlines(ls[1..]);
      SplitUnlines(ls[1..]);
      assert ls == [ls[0]] + ls[1..];
    }
  }

  /** A numbered line starts with the decimal digits of its number, which read back as that
      number, followed by ". " and the description. */
  lemma NumberedLineReadsBack(n: nat, d: string)
    ensures var p := |DecimalString(n)|;
      var line := NumberedLine(n, d);
      p <= |line| && AllDigits(line[..p]) && DecimalValue(line[..p]) == n
      && line[p..] == ". " + d
  {
    var line := NumberedLine(n, d);
    var p := |DecimalString(n)|;
    assert line[..p] == DecimalString(n);
    assert line[p..] == ". " + d;
    DecimalRoundTrip(n);
  }

  /** When no description holds a newline, line `k` of the expander is entry `k + 1` followed
      by the description of row `k`, and there is one line, and one newline, per row. */
  lemma ListingLines(vs: seq<Video>, text: string)
    requires text == Unlines(Numbered(Descriptions(vs), 1))
    requires forall k :: 0 <= k < |vs| ==> NoNewline(vs[k].description)
    ensures |SplitLines(text)| == |vs|
    ensures forall k :: 0 <= k < |vs| ==> SplitLines(text)[k] == NumberedLine(k + 1, vs[k].description)
    ensures Occurrences(text, '\n') == |vs|
  {
    var ls := Numbered(Descriptions(vs), 1);
    forall k | 0 <= k < |ls| ensures NoNewline(ls[k]) {
      var digits := DecimalString(k + 1);
      var line := NumberedLine(k + 1, vs[k].description);
      forall j | 0 <= j < |line| ensures line[j] != '\n' {
        if j < |digits| {
          assert line[j] == digits[j];
        } else if j >= |digits| + 2 {
          assert line[j] == vs[k].description[j - |digits| - 2];
        }
      }
    }
    SplitUnlines(ls);
    ListingNewlines(ls);
  }

  /** The text holds one newline per row when no description holds one. */
  lemma {:induction false} ListingNewlines(ls: seq<string>)
    requires forall k :: 0 <= k < |ls| ==> NoNewline(ls[k])
    ensures Occurrences(Unlines(ls), '\n') == |ls|
  {
    if ls != [] {
      OccurrencesAbsent(ls[0], '\n');
      OccurrencesAppend(ls[0], "\n", '\n');
      OccurrencesAppend(ls[0] + "\n", Unlines(ls[1..]), '\n');
      ListingNewlines(ls[1..]);
    }
  }
}
