/** Splitting a byte stream into lines, independently of how it arrives. */
module Lines {
  import opened Strings

  /** std::string::find('\n'); the length stands for npos. */
  function LineFeed(s: string): (k: nat)
    ensures k <= |s|
    ensures forall i :: 0 <= i < k ==> s[i] != '\n'
    ensures k < |s| ==> s[k] == '\n'
  {
    if s == "" || s[0] == '\n' then 0 else 1 + LineFeed(s[1..])
  }

  predicate HasLine(s: string) { LineFeed(s) < |s| }

  /** The complete lines of a stream, without their line feeds. */
  function Complete(s: string): seq<string> {
    if HasLine(s) then [s[..LineFeed(s)]] + Complete(s[LineFeed(s) + 1..]) else []
  }

  /** What follows the last line feed. */
  function Remainder(s: string): string {
    if HasLine(s) then Remainder(s[LineFeed(s) + 1..]) else s
  }

  /** The result of retrieve_line_as_string and peek_line. */
  function FirstLine(s: string): string {
    if HasLine(s) then s[..LineFeed(s)] else ""
  }

  /** An empty result is ambiguous, in exactly this way. */
  lemma EmptyFirstLine(s: string)
    ensures FirstLine(s) == "" <==> !HasLine(s) || s[0] == '\n'
  {}

  function Unlines(ls: seq<string>): string {
    if ls == [] then "" else ls[0] + "\n" + Unlines(ls[1..])
  }

  predicate NoLineFeed(s: string) { '\n' !in s }

  lemma {:induction false} LinesRebuild(s: string)
    ensures Unlines(Complete(s)) + Remainder(s) == s
    ensures forall i :: 0 <= i < |Complete(s)| ==> NoLineFeed(Complete(s)[i])
    ensures NoLineFeed(Remainder(s))
  {
    if HasLine(s) {
      var k := LineFeed(s);
      LinesRebuild(s[k + 1..]);
      assert Complete(s)[1..] == Complete(s[k + 1..]);
      assert s == s[..k] + "\n" + s[k + 1..];
      assert Unlines(Complete(s)) == s[..k] + "\n" + Unlines(Complete(s[k + 1..]));
      Associative(s[..k] + "\n", Unlines(Complete(s[k + 1..])), Remainder(s));
    }
  }

  lemma LineFeedAt(l: string, t: string)
    requires NoLineFeed(l)
    ensures LineFeed(l + "\n" + t) == |l| && HasLine(l + "\n" + t)
    ensures (l + "\n" + t)[..|l|] == l && (l + "\n" + t)[|l| + 1..] == t
  {
    var s := l + "\n" + t;
    assert s[|l|] == '\n';
    assert forall i :: 0 <= i < |l| ==> s[i] == l[i] && l[i] in l;
  }

  /** No other way of cutting the stream into lines and a rest is possible. */
  lemma {:induction false} OnlySplit(ls: seq<string>, r: string)
    requires forall i :: 0 <= i < |ls| ==> NoLineFeed(ls[i])
    requires NoLineFeed(r)
    ensures Complete(Unlines(ls) + r) == ls && Remainder(Unlines(ls) + r) == r
  {
    if ls == [] {
      assert Unlines(ls) + r == r;
      assert forall i :: 0 <= i < |r| ==> r[i] in r;
    } else {
      var t := Unlines(ls[1..]) + r;
      assert Unlines(ls) + r == ls[0] + "\n" + t;
      LineFeedAt(ls[0], t);
      OnlySplit(ls[1..], r);
    }
  }

  lemma {:induction false} UnlinesConcat(a: seq<string>, b: seq<string>)
    ensures Unlines(a + b) == Unlines(a) + Unlines(b)
  {
    if a == [] {
      assert a + b == b;
    } else {
      assert (a + b)[1..] == a[1..] + b;
      UnlinesConcat(a[1..], b);
      assert Unlines(a + b) == a[0] + "\n" + (Unlines(a[1..]) + Unlines(b));
    }
  }

  /** Draining the complete lines before more bytes arrive changes nothing. */
  lemma DrainThenAppend(a: string, b: string)
    ensures Complete(a + b) == Complete(a) + Complete(Remainder(a) + b)
    ensures Remainder(a + b) == Remainder(Remainder(a) + b)
  {
    hide Complete, Remainder, Unlines;
    var m := Remainder(a) + b;
    LinesRebuild(a);
    LinesRebuild(m);
    UnlinesConcat(Complete(a), Complete(m));
    Associative(Unlines(Complete(a)), Remainder(a), b);
    Associative(Unlines(Complete(a)), Unlines(Complete(m)), Remainder(m));
    OnlySplit(Complete(a) + Complete(m), Remainder(m));
  }

  function Joined(chunks: seq<string>): string {
    if chunks == [] then "" else Joined(chunks[..|chunks| - 1]) + chunks[|chunks| - 1]
  }

  /** The lines read, and the bytes left, when every chunk is drained of its
      complete lines as soon as it has been appended. */
  function Drained(chunks: seq<string>): (seq<string>, string) {
    if chunks == [] then ([], "")
    else
      var (ls, rest) := Drained(chunks[..|chunks| - 1]);
      var s := rest + chunks[|chunks| - 1];
      (ls + Complete(s), Remainder(s))
  }

  /** Line extraction does not depend on how the stream was cut into chunks. */
  lemma {:induction false} ChunkingDoesNotMatter(chunks: seq<string>)
    ensures Drained(chunks) == (Complete(Joined(chunks)), Remainder(Joined(chunks)))
  {
    if chunks != [] {
      var front := chunks[..|chunks| - 1];
      ChunkingDoesNotMatter(front);
      DrainThenAppend(Joined(front), chunks[|chunks| - 1]);
    }
  }
}
