/** The text the ledger gates hash: cells with markdown emphasis removed and white space collapsed. */
module LedgerText {

  /** The characters on which a bare split() divides a string. */
  predicate IsSpace(c: char) {
    || '\U{9}' <= c <= '\U{D}' || '\U{1C}' <= c <= '\U{20}' || c == '\U{85}' || c == '\U{A0}'
    || c == '\U{1680}' || '\U{2000}' <= c <= '\U{200A}' || c == '\U{2028}' || c == '\U{2029}'
    || c == '\U{202F}' || c == '\U{205F}' || c == '\U{3000}'
  }

  predicate IsEmphasis(c: char) {
    c == '*' || c == '_' || c == '`'
  }

  const SEPARATOR: char := '\U{1F}'

  function Plain(s: string): string {
    if s == "" then ""
    else (if IsEmphasis(s[0]) then "" else [s[0]]) + Plain(s[1..])
  }

  /** The length of the word `s` starts with. */
  function WordLength(s: string): (n: nat)
    ensures n <= |s|
    ensures forall i | 0 <= i < n :: !IsSpace(s[i])
    ensures n < |s| ==> IsSpace(s[n])
  {
    if s == "" || IsSpace(s[0]) then 0 else 1 + WordLength(s[1..])
  }

  /** split(): the maximal runs of characters that are not white space. */
  function Words(s: string): seq<string>
    decreases |s|
  {
    if s == "" then []
    else if IsSpace(s[0]) then Words(s[1..])
    else [s[..WordLength(s)]] + Words(s[WordLength(s)..])
  }

  function Join(ws: seq<string>): string {
    if ws == [] then ""
    else if |ws| == 1 then ws[0]
    else ws[0] + " " + Join(ws[1..])
  }

  function Normalise(cell: string): string {
    Join(Words(Plain(cell)))
  }

  predicate Blank(s: string) {
    forall i | 0 <= i < |s| :: IsSpace(s[i])
  }

  /** strip() */
  function Strip(s: string): string
    decreases |s|
  {
    if s == "" then ""
    else if IsSpace(s[0]) then Strip(s[1..])
    else if IsSpace(s[|s| - 1]) then Strip(s[..|s| - 1])
    else s
  }

  // ---------------------------------------------------------------------------------
  // Words and their joining
  // ---------------------------------------------------------------------------------

  predicate IsWord(w: string) {
    w != "" && forall i | 0 <= i < |w| :: !IsSpace(w[i]) && !IsEmphasis(w[i])
  }

  predicate AreWords(ws: seq<string>) {
    forall k | 0 <= k < |ws| :: IsWord(ws[k])
  }

  lemma {:induction false} PlainHasNoEmphasis(s: string)
    ensures forall i | 0 <= i < |Plain(s)| :: !IsEmphasis(Plain(s)[i])
  {
    if s != "" {
      PlainHasNoEmphasis(s[1..]);
    }
  }

  lemma {:induction false} PlainKeepsPlain(s: string)
    requires forall i | 0 <= i < |s| :: !IsEmphasis(s[i])
    ensures Plain(s) == s
  {
    if s != "" {
      PlainKeepsPlain(s[1..]);
    }
  }

  lemma {:induction false} WordsAreWords(s: string)
    requires forall i | 0 <= i < |s| :: !IsEmphasis(s[i])
    ensures AreWords(Words(s))
    decreases |s|
  {
    if s != "" {
      if IsSpace(s[0]) {
        WordsAreWords(s[1..]);
      } else {
        WordsAreWords(s[WordLength(s)..]);
        assert IsWord(s[..WordLength(s)]);
      }
    }
  }

  /** A word at the front of a string, at its end or before a space, is the first of its words. */
  lemma {:induction false} WordInFront(w: string, rest: string)
    requires IsWord(w) && (rest == "" || IsSpace(rest[0]))
    ensures WordLength(w + rest) == |w|
    decreases |w|
  {
    assert (w + rest)[1..] == w[1..] + rest;
    if |w| > 1 {
      WordInFront(w[1..], rest);
    } else {
      assert (w + rest)[1..] == rest;
    }
  }

  /** Joining words loses none of them. */
  lemma {:induction false} WordsOfJoin(ws: seq<string>)
    requires AreWords(ws)
    ensures Words(Join(ws)) == ws
  {
    if |ws| == 1 {
      WordInFront(ws[0], "");
      assert ws[0] + "" == ws[0];
      assert ws == [ws[0]];
    } else if |ws| > 1 {
      var rest := " " + Join(ws[1..]);
      WordInFront(ws[0], rest);
      assert Join(ws) == ws[0] + rest;
      assert (ws[0] + rest)[..|ws[0]|] == ws[0] && (ws[0] + rest)[|ws[0]|..] == rest;
      assert rest[1..] == Join(ws[1..]);
      WordsOfJoin(ws[1..]);
    }
  }

  /** A joining of words holds no emphasis, and no white space but single blanks. */
  lemma {:induction false} JoinIsClean(ws: seq<string>)
    requires AreWords(ws)
    ensures forall i | 0 <= i < |Join(ws)| :: !IsEmphasis(Join(ws)[i])
    ensures forall i | 0 <= i < |Join(ws)| :: IsSpace(Join(ws)[i]) ==> Join(ws)[i] == ' '
  {
    if |ws| > 1 {
      JoinIsClean(ws[1..]);
      assert !IsEmphasis(' ');
    } else if |ws| == 1 {
      assert IsWord(ws[0]);
    }
  }

  // ---------------------------------------------------------------------------------
  // Character by character
  // ---------------------------------------------------------------------------------

  /** Emphasis goes wherever it stands, and takes nothing with it. */
  lemma {:induction false} PlainSplits(a: string, b: string)
    ensures Plain(a + b) == Plain(a) + Plain(b)
  {
    if a == "" {
      assert a + b == b;
    } else {
      assert (a + b)[0] == a[0] && (a + b)[1..] == a[1..] + b;
      PlainSplits(a[1..], b);
    }
  }

  /** Of single characters, three are emphasis, and every other is kept. */
  lemma PlainOfOne(c: char)
    ensures Plain([c]) == if c == '*' || c == '_' || c == '`' then "" else [c]
  {
    assert [c][1..] == "";
  }

  /** Words end at white space, and only there: what stands on either side of it is split on its own. */
  lemma {:induction false} WordsSplit(a: string, c: char, b: string)
    requires IsSpace(c)
    ensures Words(a + [c] + b) == Words(a) + Words(b)
    decreases |a|
  {
    var s := a + [c] + b;
    if a == "" {
      assert s[0] == c && s[1..] == b;
    } else if IsSpace(a[0]) {
      assert s[0] == a[0] && s[1..] == a[1..] + [c] + b;
      WordsSplit(a[1..], c, b);
    } else {
      var n := WordLength(a);
      WordLengthStops(a, [c] + b);
      assert s == a + ([c] + b);
      assert s[..n] == a[..n] && s[n..] == a[n..] + [c] + b;
      WordsSplit(a[n..], c, b);
      assert [a[..n]] + (Words(a[n..]) + Words(b)) == [a[..n]] + Words(a[n..]) + Words(b);
    }
  }

  /** White space after a string does not make its first word longer. */
  lemma {:induction false} WordLengthStops(a: string, rest: string)
    requires rest != "" && IsSpace(rest[0])
    ensures WordLength(a + rest) == WordLength(a)
  {
    if a != "" && !IsSpace(a[0]) {
      assert (a + rest)[1..] == a[1..] + rest;
      WordLengthStops(a[1..], rest);
    } else if a == "" {
      assert a + rest == rest;
    }
  }

  /** A string without white space is one word. */
  lemma {:induction false} OneWord(w: string)
    requires w != "" && forall i | 0 <= i < |w| :: !IsSpace(w[i])
    ensures Words(w) == [w]
  {
    assert WordLength(w) == |w|;
    assert w[..|w|] == w && w[|w|..] == "";
  }

  /** The white space is these 29 characters, and no letter, digit or mark of punctuation. */
  lemma SpacesExactly(c: char)
    ensures IsSpace(c) <==>
            c in {
              '\U{9}', '\U{A}', '\U{B}', '\U{C}', '\U{D}', '\U{1C}', '\U{1D}', '\U{1E}', '\U{1F}', '\U{20}',
              '\U{85}', '\U{A0}', '\U{1680}', '\U{2000}', '\U{2001}', '\U{2002}', '\U{2003}', '\U{2004}', '\U{2005}', '\U{2006}',
              '\U{2007}', '\U{2008}', '\U{2009}', '\U{200A}', '\U{2028}', '\U{2029}', '\U{202F}', '\U{205F}', '\U{3000}'}
  {
  }

  // ---------------------------------------------------------------------------------
  // What normalisation keeps, and what it forgets
  // ---------------------------------------------------------------------------------

  lemma NormalWords(cell: string)
    ensures AreWords(Words(Plain(cell)))
    ensures Words(Normalise(cell)) == Words(Plain(cell))
  {
    PlainHasNoEmphasis(cell);
    WordsAreWords(Plain(cell));
    WordsOfJoin(Words(Plain(cell)));
  }

  /** Two cells normalise alike exactly when, emphasis aside, they hold the same words. */
  lemma AlikeExactly(a: string, b: string)
    ensures Normalise(a) == Normalise(b) <==> Words(Plain(a)) == Words(Plain(b))
  {
    NormalWords(a);
    NormalWords(b);
  }

  lemma NormaliseIsIdempotent(cell: string)
    ensures Normalise(Normalise(cell)) == Normalise(cell)
  {
    NormalWords(cell);
    JoinIsClean(Words(Plain(cell)));
    PlainKeepsPlain(Normalise(cell));
  }

  /** The separator is white space to split(), so no normalised cell contains it. */
  lemma NoSeparatorInside(cell: string)
    ensures SEPARATOR !in Normalise(cell)
  {
    NormalWords(cell);
    JoinIsClean(Words(Plain(cell)));
  }

  function Payload(purpose: string, acceptance: string): string {
    Normalise(purpose) + [SEPARATOR] + Normalise(acceptance)
  }

  /** The payload is the purpose, the unit separator, the acceptance, in that order. */
  lemma PayloadReads(purpose: string, acceptance: string)
    ensures var k, p := |Normalise(purpose)|, Payload(purpose, acceptance);
            && |p| == k + 1 + |Normalise(acceptance)| && p[k] == '\U{1F}'
            && Words(p[..k]) == Words(Plain(purpose)) && Words(p[k + 1..]) == Words(Plain(acceptance))
  {
    var k, p := |Normalise(purpose)|, Payload(purpose, acceptance);
    assert p[..k] == Normalise(purpose) && p[k + 1..] == Normalise(acceptance);
    NormalWords(purpose);
    NormalWords(acceptance);
  }

  /** A normalised cell is its words with one blank between each two. */
  lemma {:induction false} JoinedWithBlanks(ws: seq<string>)
    requires |ws| > 1
    ensures Join(ws) == ws[0] + [' '] + Join(ws[1..]) && Join([ws[0]]) == ws[0] && Join([]) == ""
  {
  }

  lemma {:induction false} SplitAtSeparator(a: string, b: string, c: string, d: string)
    requires SEPARATOR !in a && SEPARATOR !in c
    requires a + [SEPARATOR] + b == c + [SEPARATOR] + d
    ensures a == c && b == d
  {
    var s := a + [SEPARATOR] + b;
    assert s[|a|] == SEPARATOR && s[|c|] == SEPARATOR;
    assert forall i | 0 <= i < |a| :: s[i] == a[i] && s[i] != SEPARATOR;
    assert forall i | 0 <= i < |c| :: s[i] == c[i] && s[i] != SEPARATOR;
    assert |a| == |c|;
    assert s[..|a|] == a && s[|a| + 1..] == b;
    assert s[..|c|] == c && s[|c| + 1..] == d;
  }

  /** The payload that is hashed identifies both cells: no two different rows share one. */
  lemma PayloadIdentifies(p: string, a: string, q: string, b: string)
    ensures Payload(p, a) == Payload(q, b) <==> Normalise(p) == Normalise(q) && Normalise(a) == Normalise(b)
  {
    NoSeparatorInside(p);
    NoSeparatorInside(q);
    if Payload(p, a) == Payload(q, b) {
      SplitAtSeparator(Normalise(p), Normalise(a), Normalise(q), Normalise(b));
    }
  }

  /** A hash without collisions. */
  ghost predicate CollisionFree(sha: string -> string) {
    forall x, y :: sha(x) == sha(y) ==> x == y
  }

  /** So a row's hash changes exactly when the words of one of its two cells do. */
  lemma HashChangesExactly(sha: string -> string, p: string, a: string, q: string, b: string)
    requires CollisionFree(sha)
    ensures sha(Payload(p, a)) == sha(Payload(q, b)) <==>
            Words(Plain(p)) == Words(Plain(q)) && Words(Plain(a)) == Words(Plain(b))
  {
    PayloadIdentifies(p, a, q, b);
    AlikeExactly(p, q);
    AlikeExactly(a, b);
  }

  // ---------------------------------------------------------------------------------
  // Stripping
  // ---------------------------------------------------------------------------------

  /** strip() cuts white space off both ends, all of it, and nothing else. */
  lemma {:induction false} StripCuts(s: string) returns (i: nat, j: nat)
    ensures i <= j <= |s| && Strip(s) == s[i..j]
    ensures forall k | 0 <= k < i || j <= k < |s| :: IsSpace(s[k])
    ensures Strip(s) != "" ==> !IsSpace(Strip(s)[0]) && !IsSpace(Strip(s)[|Strip(s)| - 1])
    decreases |s|
  {
    i, j := 0, |s|;
    if s != "" {
      if IsSpace(s[0]) {
        i, j := StripCuts(s[1..]);
        assert forall k | 1 <= k < |s| :: s[k] == s[1..][k - 1];
        i, j := i + 1, j + 1;
      } else if IsSpace(s[|s| - 1]) {
        i, j := StripCuts(s[..|s| - 1]);
      }
    }
  }

  lemma {:induction false} StripIsEmptyExactly(s: string)
    ensures Strip(s) == "" <==> Blank(s)
    decreases |s|
  {
    if s != "" {
      if IsSpace(s[0]) {
        StripIsEmptyExactly(s[1..]);
        assert Blank(s) <==> Blank(s[1..]) by {
          assert forall i | 1 <= i < |s| :: s[i] == s[1..][i - 1];
        }
      } else if IsSpace(s[|s| - 1]) {
        StripIsEmptyExactly(s[..|s| - 1]);
        assert s[..|s| - 1][0] == s[0];
      }
    }
  }
}
