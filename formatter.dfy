/** The verse formatter: turns the records of one passage-of-the-day response
    into terminal text, with one layout for a single verse and another for a
    range of verses. */
module Formatter {
  import opened TextLines

  /** One scripture verse; every field is text exactly as the payload carries it. */
  datatype Verse = Verse(bookname: string, chapter: string, verse: string, text: string)

  /** The records of one response, in payload order. */
  type Votd = seq<Verse>

  /** No field of the record holds a newline, so each rendered line is one line. */
  predicate SingleLine(v: Verse) {
    NoNewline(v.bookname) && NoNewline(v.chapter) && NoNewline(v.verse) && NoNewline(v.text)
  }

  /** "<book> <chapter>:<verse>". */
  function Header(v: Verse): string {
    v.bookname + " " + v.chapter + ":" + v.verse
  }

  /** The header copies every field whole and untrimmed, in the order book,
      chapter, verse, separated by a space and a colon. */
  lemma HeaderFields(v: Verse)
    ensures var r := Header(v);
      && |r| == |v.bookname| + |v.chapter| + |v.verse| + 2
      && r[..|v.bookname|] == v.bookname && r[|v.bookname|] == ' '
      && r[|v.bookname| + 1..|r| - |v.verse| - 1] == v.chapter
      && r[|r| - |v.verse| - 1] == ':' && r[|r| - |v.verse|..] == v.verse
  {
  }

  /** The indented line "\t(<verse>) <text>". */
  function VerseLine(v: Verse): string {
    "\t(" + v.verse + ") " + v.text
  }

  /** The verse line is a tab, the verse number in parentheses, a space and
      the verse text, each copied whole. */
  lemma VerseLineFields(v: Verse)
    ensures var r := VerseLine(v);
      && |r| == |v.verse| + |v.text| + 4
      && r[..2] == "\t(" && r[2..|v.verse| + 2] == v.verse
      && r[|v.verse| + 2..|v.verse| + 4] == ") " && r[|v.verse| + 4..] == v.text
  {
  }

  /** One record on its own: the verse line, with the header and a newline in
      front when asked for. */
  function VerseToString(v: Verse, includeHeader: bool): string {
    (if includeHeader then Header(v) + "\n" else "") + VerseLine(v)
  }

  /** With or without the header, the record's text ends with its verse line;
      with the header it starts with the header and a newline, and without it
      is nothing but the verse line, so it is a suffix of the text with the
      header. */
  lemma VerseToStringShape(v: Verse, includeHeader: bool)
    ensures var r := VerseToString(v, includeHeader);
      && |r| == |VerseLine(v)| + (if includeHeader then |Header(v)| + 1 else 0)
      && r[|r| - |VerseLine(v)|..] == VerseLine(v)
      && (includeHeader ==> r[..|Header(v)|] == Header(v) && r[|Header(v)|] == '\n')
    ensures var t := VerseToString(v, true); var f := VerseToString(v, false);
      |f| <= |t| && t[|t| - |f|..] == f
  {
  }

  /** The header line of a range: the first record's header, a dash, the last
      record's verse number, a newline. */
  function RangeHeader(vs: Votd): string
    requires |vs| >= 1
  {
    Header(vs[0]) + "-" + vs[|vs| - 1].verse + "\n"
  }

  /** Every record's header-less line followed by a newline, in order. */
  function Body(vs: Votd): (r: string)
    ensures vs != [] ==> |r| > 0 && r[|r| - 1] == '\n'
  {
    if vs == [] then "" else Body(vs[..|vs| - 1]) + VerseToString(vs[|vs| - 1], false) + "\n"
  }

  /** The text printed for a passage. Only a non-empty passage can be
      rendered: with no record, the single-verse branch has nothing to index. */
  function Render(vs: Votd): (r: string)
    requires |vs| >= 1
    ensures |vs| > 1 ==> |r| > 0 && r[|r| - 1] == '\n'
  {
    if |vs| > 1 then RangeHeader(vs) + Body(vs) else VerseToString(vs[0], true)
  }

  /** Rendering a passage, as the program does it: a range header and a loop
      that appends one line per record, or the lone record with its header. */
  method VotdToString(v: Votd) returns (s: string)
    requires |v| >= 1
    ensures s == Render(v)
  {
    var numVerses := |v|;
    if numVerses > 1 {
      var header := Header(v[0]) + "-" + v[numVerses - 1].verse + "\n";
      var text := "";
      for t := 0 to numVerses
        invariant text == Body(v[..t])
      {
        assert v[..t + 1][..t] == v[..t];
        text := text + VerseToString(v[t], false) + "\n";
      }
      assert v[..numVerses] == v;
      return header + text;
    }
    return VerseToString(v[0], true);
  }

  /** Without the header, a record's text is exactly its verse line. */
  lemma HeaderlessIsVerseLine(v: Verse)
    ensures VerseToString(v, false) == VerseLine(v)
    ensures VerseToString(v, true) == Header(v) + "\n" + VerseToString(v, false)
  {
  }

  /** The body of two passages one after the other is the body of the first
      followed by the body of the second: nothing is reordered or merged. */
  lemma {:induction false} BodyAppend(a: Votd, b: Votd)
    ensures Body(a + b) == Body(a) + Body(b)
    decreases |b|
  {
    if b == [] {
      assert a + b == a;
    } else {
      var front, last := b[..|b| - 1], b[|b| - 1];
      var line := VerseToString(last, false) + "\n";
      var ab := a + b;
      assert ab[..|ab| - 1] == a + front && ab[|ab| - 1] == last;
      assert Body(ab) == Body(a + front) + line;
      BodyAppend(a, front);
      assert Body(b) == Body(front) + line;
    }
  }

  /** Record i's line sits between the lines of the records before it and
      those after it. */
  lemma {:induction false} BodyAt(vs: Votd, i: nat)
    requires i < |vs|
    ensures Body(vs) == Body(vs[..i]) + VerseLine(vs[i]) + "\n" + Body(vs[i + 1..])
  {
    var upTo := vs[..i] + [vs[i]];
    assert vs == upTo + vs[i + 1..];
    BodyAppend(upTo, vs[i + 1..]);
    assert upTo[..|upTo| - 1] == vs[..i] && upTo[|upTo| - 1] == vs[i];
    assert Body(upTo) == Body(vs[..i]) + VerseToString(vs[i], false) + "\n";
    HeaderlessIsVerseLine(vs[i]);
  }

  /** The first record's line comes first. */
  lemma BodyFront(vs: Votd)
    requires vs != []
    ensures Body(vs) == VerseLine(vs[0]) + "\n" + Body(vs[1..])
  {
    assert vs[..0] == [];
    BodyAt(vs, 0);
  }

  /** The verse lines of a passage, one per record, in order. */
  function VerseLines(vs: Votd): seq<string> {
    seq(|vs|, i requires 0 <= i < |vs| => VerseLine(vs[i]))
  }

  /** A record without newlines renders to a line without newlines. */
  lemma SingleLineParts(v: Verse)
    requires SingleLine(v)
    ensures NoNewline(Header(v)) && NoNewline(VerseLine(v))
  {
  }

  /** Cut at newlines, the body is one verse line per record and then the
      empty remainder after the final newline. */
  lemma {:induction false} BodyLines(vs: Votd)
    requires forall i :: 0 <= i < |vs| ==> SingleLine(vs[i])
    ensures Split(Body(vs)) == VerseLines(vs) + [""]
    decreases |vs|
  {
    if vs == [] {
    } else {
      var rest := vs[1..];
      BodyFront(vs);
      SingleLineParts(vs[0]);
      SplitLineThen(VerseLine(vs[0]), Body(rest));
      assert forall i :: 0 <= i < |rest| ==> SingleLine(rest[i]) by {
        forall i | 0 <= i < |rest| ensures SingleLine(rest[i]) {
          assert rest[i] == vs[i + 1];
        }
      }
      BodyLines(rest);
      assert VerseLines(vs) == [VerseLine(vs[0])] + VerseLines(rest);
    }
  }

  /** A single record prints as exactly two lines, its header and its verse
      line, with no newline after the verse text. */
  lemma SingleVerseLayout(v: Verse)
    requires SingleLine(v)
    ensures Split(Render([v])) == [Header(v), VerseLine(v)]
  {
    HeaderlessIsVerseLine(v);
    SingleVerseOutput(v);
    SingleLineParts(v);
    SplitLineThen(Header(v), VerseLine(v));
    SplitSingleLine(VerseLine(v));
  }

  /** The single-record output ends with the verse text itself. */
  lemma SingleVerseOutput(v: Verse)
    ensures Render([v]) == VerseToString(v, true)
    ensures |Render([v])| >= |v.text| && Render([v])[|Render([v])| - |v.text|..] == v.text
  {
  }

  /** Several records print as one range header line, built from the first
      record and the last record's verse number only, then one verse line per
      record in input order, each ending in a newline. */
  lemma PassageLayout(vs: Votd)
    requires |vs| > 1
    requires forall i :: 0 <= i < |vs| ==> SingleLine(vs[i])
    ensures Split(Render(vs)) == [Header(vs[0]) + "-" + vs[|vs| - 1].verse] + VerseLines(vs) + [""]
  {
    var head := Header(vs[0]) + "-" + vs[|vs| - 1].verse;
    SingleLineParts(vs[0]);
    assert NoNewline(head) by {
      assert SingleLine(vs[|vs| - 1]);
      assert head == Header(vs[0]) + ['-'] + vs[|vs| - 1].verse;
    }
    assert Render(vs) == head + "\n" + Body(vs);
    SplitLineThen(head, Body(vs));
    BodyLines(vs);
  }

  /** Joining the verse lines of a passage, with the empty line after the
      final newline, gives back the loop's text, whatever the records hold. */
  lemma {:induction false} BodyJoin(vs: Votd)
    ensures Join(VerseLines(vs) + [""]) == Body(vs)
    decreases |vs|
  {
    if vs != [] {
      BodyFront(vs);
      BodyJoin(vs[1..]);
      assert (VerseLines(vs) + [""])[1..] == VerseLines(vs[1..]) + [""];
    }
  }

  /** The printed text of a single record, as its lines joined by newlines. */
  lemma SingleVerseText(v: Verse)
    ensures Render([v]) == Join([Header(v), VerseLine(v)])
  {
    HeaderlessIsVerseLine(v);
    assert [Header(v), VerseLine(v)][1..] == [VerseLine(v)];
  }

  /** The printed text of several records, as its lines joined by newlines:
      the range header, one verse line per record in order, and the empty
      line after the final newline. */
  lemma PassageText(vs: Votd)
    requires |vs| > 1
    ensures Render(vs) == Join([Header(vs[0]) + "-" + vs[|vs| - 1].verse] + VerseLines(vs) + [""])
  {
    var head := Header(vs[0]) + "-" + vs[|vs| - 1].verse;
    var lines := [head] + VerseLines(vs) + [""];
    BodyJoin(vs);
    assert lines[1..] == VerseLines(vs) + [""];
    assert Render(vs) == head + "\n" + Body(vs);
  }

  /** The range header reads only the first record and the last record's verse
      number: passages that agree there get the same header, whatever lies
      between. */
  lemma RangeHeaderFromEnds(vs: Votd, ws: Votd)
    requires |vs| > 1 && |ws| > 1
    requires vs[0] == ws[0] && vs[|vs| - 1].verse == ws[|ws| - 1].verse
    ensures Render(vs)[..|RangeHeader(vs)|] == Render(ws)[..|RangeHeader(ws)|]
  {
  }

  /** The single verse used as an example of the output format. */
  lemma SpecimenVerse()
    ensures Render([Verse("John", "3", "16", "For God so loved...")])
         == "John 3:16\n\t(16) For God so loved..."
  {
    var v := Verse("John", "3", "16", "For God so loved...");
    var header, line := Header(v), VerseLine(v);
    assert header == "John 3:16";
    assert line == "\t(16) For God so loved...";
    assert Render([v]) == header + "\n" + line by {
      HeaderlessIsVerseLine(v);
    }
  }

  /** The two-verse range used as an example of the output format. */
  lemma SpecimenRange()
    ensures RangeHeader([Verse("John", "3", "16", "..."), Verse("John", "3", "17", "...")])
         == "John 3:16-17\n"
  {
  }
}
