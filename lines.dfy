/** The line structure of terminal text: a string cut at every newline. Used to
    state the layouts of the verse formatter the way a reader of the terminal
    sees them. */
module TextLines {

  /** No newline anywhere in s. */
  predicate NoNewline(s: string) {
    '\n' !in s
  }

  /** s cut at every '\n'; the newlines themselves are dropped, so text that ends
      in a newline has an empty last line. */
  function Split(s: string): (r: seq<string>)
    ensures |r| >= 1
    ensures forall i :: 0 <= i < |r| ==> NoNewline(r[i])
    decreases |s|
  {
    if s == [] then [""]
    else
      var rest := Split(s[1..]);
      if s[0] == '\n' then [""] + rest else [[s[0]] + rest[0]] + rest[1..]
  }

  /** The lines put back together with a newline between neighbours. */
  function Join(lines: seq<string>): (r: string)
    requires |lines| >= 1
    ensures |r| >= |lines| - 1
    decreases |lines|
  {
    if |lines| == 1 then lines[0] else lines[0] + "\n" + Join(lines[1..])
  }

  /** Cutting at newlines loses nothing: joining the pieces gives the text back. */
  lemma {:induction false} JoinSplit(s: string)
    ensures Join(Split(s)) == s
    decreases |s|
  {
    if s != [] {
      var rest := Split(s[1..]);
      JoinSplit(s[1..]);
      if s[0] == '\n' {
        assert Split(s) == [""] + rest;
        assert Split(s)[1..] == rest;
        assert Join(Split(s)) == "" + "\n" + Join(rest);
        assert s == [s[0]] + s[1..];
      } else {
        var first := [s[0]] + rest[0];
        assert Split(s) == [first] + rest[1..];
        if |rest| == 1 {
          assert Join(Split(s)) == first;
          assert Join(rest) == rest[0];
        } else {
          assert Split(s)[1..] == rest[1..];
          assert Join(Split(s)) == first + "\n" + Join(rest[1..]);
          assert Join(rest) == rest[0] + "\n" + Join(rest[1..]);
        }
        assert s == [s[0]] + s[1..];
      }
    }
  }

  /** Text without a newline is a single line. */
  lemma {:induction false} SplitSingleLine(a: string)
    requires NoNewline(a)
    ensures Split(a) == [a]
    decreases |a|
  {
    if a != [] {
      assert NoNewline(a[1..]) by {
        assert forall c :: c in a[1..] ==> c in a;
      }
      SplitSingleLine(a[1..]);
      assert [a[0]] + a[1..] == a;
    }
  }

  /** A line without a newline, then a newline, then the rest: the line comes off
      the front and the rest is cut on its own. */
  lemma {:induction false} SplitLineThen(a: string, b: string)
    requires NoNewline(a)
    ensures Split(a + "\n" + b) == [a] + Split(b)
    decreases |a|
  {
    if a == [] {
      assert a + "\n" + b == ['\n'] + b;
      assert (['\n'] + b)[1..] == b;
    } else {
      assert NoNewline(a[1..]) by {
        assert forall c :: c in a[1..] ==> c in a;
      }
      SplitLineThen(a[1..], b);
      var s := a + "\n" + b;
      assert s[0] == a[0] && s[1..] == a[1..] + "\n" + b;
      assert [a[0]] + a[1..] == a;
    }
  }
}
