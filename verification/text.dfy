/**
 * A line-oriented view of text: Unlines joins lines with "\n" (the way a
 * line-oriented file is written), Lines splits text at every "\n" (the way
 * a line-oriented reader sees it).
 */
module Text {

  predicate NoNewline(l: string)
  {
    '\n' !in l
  }

  /** The lines joined by single newline characters. */
  function Unlines(ls: seq<string>): (s: string)
    decreases |ls|
  {
    if |ls| == 0 then ""
    else if |ls| == 1 then ls[0]
    else ls[0] + "\n" + Unlines(ls[1..])
  }

  /** The text split at every newline; a text with k newlines has k + 1 lines. */
  function Lines(s: string): (ls: seq<string>)
    ensures |ls| >= 1
    ensures forall i :: 0 <= i < |ls| ==> NoNewline(ls[i])
    decreases |s|
  {
    if |s| == 0 then [""]
    else
      var rest := Lines(s[1..]);
      if s[0] == '\n' then [""] + rest
      else [[s[0]] + rest[0]] + rest[1..]
  }

  /** A first line without a newline is split off intact. */
  lemma {:induction false} LinesCons(l: string, t: string)
    requires NoNewline(l)
    ensures Lines(l + "\n" + t) == [l] + Lines(t)
    ensures Lines(l) == [l]
    decreases |l|
  {
    if |l| == 0 {
      assert l + "\n" + t == "\n" + t;
      assert ("\n" + t)[1..] == t;
    } else {
      LinesCons(l[1..], t);
      assert (l + "\n" + t)[1..] == l[1..] + "\n" + t;
      assert l[1..] !=[] ==> l[1..][0] != '\n';
      assert [l[0]] + l[1..] == l;
    }
  }

  /** Splitting joined lines gives the lines back. */
  lemma {:induction false} LinesUnlines(ls: seq<string>)
    requires |ls| >= 1
    requires forall i :: 0 <= i < |ls| ==> NoNewline(ls[i])
    ensures Lines(Unlines(ls)) == ls
    decreases |ls|
  {
    LinesCons(ls[0], "");
    if |ls| > 1 {
      LinesUnlines(ls[1..]);
      LinesCons(ls[0], Unlines(ls[1..]));
      assert ls == [ls[0]] + ls[1..];
    }
  }

  /** Joining the split lines gives the text back. */
  lemma {:induction false} UnlinesLines(s: string)
    ensures Unlines(Lines(s)) == s
    decreases |s|
  {
    if |s| > 0 {
      UnlinesLines(s[1..]);
      var rest := Lines(s[1..]);
      if s[0] == '\n' {
        assert s == "\n" + s[1..];
      } else {
        assert s == [s[0]] + s[1..];
        if |rest| > 1 {
          assert ([[s[0]] + rest[0]] + rest[1..])[1..] == rest[1..];
        }
      }
    }
  }
}
