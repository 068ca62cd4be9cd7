/** `_clean` of `group_a/customer_satisfaction/modules/img_builder.py` and
    `customer_analysis/modules/img_builder.py` (the two are the same):
    lower-case the review text, drop ASCII punctuation, split on
    whitespace, drop stop words, join the rest with single spaces, and
    write `none` for a text with nothing left. The stop-word list is a
    parameter. */
module TextClean {

  // ---------------------------------------------------------------------
  // Characters

  /** The characters `str.split()` splits on (`str.isspace`). */
  predicate IsSpace(c: char) {
    || c == ' ' || '\t' <= c <= '\r' || '\U{1c}' <= c <= '\U{1f}'
    || c == '\U{85}' || c == '\U{a0}' || c == '\U{1680}' || '\U{2000}' <= c <= '\U{200a}'
    || c == '\U{2028}' || c == '\U{2029}' || c == '\U{202f}' || c == '\U{205f}' || c == '\U{3000}'
  }

  /** `string.punctuation`. */
  const Punctuation: string := "!\"#$%&'()*+,-./:;<=>?@[\\]^_`{|}~"

  predicate IsUpper(c: char) {
    'A' <= c <= 'Z'
  }

  function LowerChar(c: char): (d: char)
    ensures !IsUpper(d)
    ensures !IsUpper(c) ==> d == c
    ensures IsSpace(d) <==> IsSpace(c)
  {
    if IsUpper(c) then (c as int + 32) as char else c
  }

  /** `text.lower()` on the ASCII letters. */
  function Lower(s: string): (r: string)
    ensures |r| == |s|
    ensures forall i :: 0 <= i < |s| ==> r[i] == LowerChar(s[i])
  {
    seq(|s|, i requires 0 <= i < |s| => LowerChar(s[i]))
  }

  /** The characters of `s` outside `Punctuation`, in order. */
  function StripPunctuation(s: string): (r: string)
    ensures forall c :: c in r <==> c in s && c !in Punctuation
    ensures |r| <= |s|
  {
    if |s| == 0 then []
    else (if s[0] in Punctuation then [] else [s[0]]) + StripPunctuation(s[1..])
  }

  /** Only punctuation is removed: with none present the text is kept. */
  lemma {:induction false} StripPunctuationNone(s: string)
    requires forall c :: c in s ==> c !in Punctuation
    ensures StripPunctuation(s) == s
  {
    if |s| > 0 {
      assert s[0] in s;
      assert forall c :: c in s[1..] ==> c in s;
      StripPunctuationNone(s[1..]);
      assert [s[0]] + s[1..] == s;
    }
  }

  // ---------------------------------------------------------------------
  // Words

  ghost predicate IsWord(w: string) {
    |w| > 0 && forall c :: c in w ==> !IsSpace(c)
  }

  ghost predicate AllWords(ws: seq<string>) {
    forall i :: 0 <= i < |ws| ==> IsWord(ws[i])
  }

  /** The longest prefix of `s` without whitespace. */
  function TakeWord(s: string): (w: string)
    ensures |w| <= |s| && w == s[..|w|]
    ensures forall c :: c in w ==> !IsSpace(c)
    ensures |w| < |s| ==> IsSpace(s[|w|])
  {
    if |s| == 0 || IsSpace(s[0]) then []
    else [s[0]] + TakeWord(s[1..])
  }

  /** `str.split()`: the maximal runs of non-whitespace characters. */
  function Split(s: string): (ws: seq<string>)
    ensures AllWords(ws)
    decreases |s|
  {
    if |s| == 0 then []
    else if IsSpace(s[0]) then Split(s[1..])
    else
      var w := TakeWord(s);
      [w] + Split(s[|w|..])
  }

  /** Word `w` stands at position `p` of `s` as a maximal run of
      non-whitespace characters. */
  ghost predicate MaximalRunAt(s: string, p: nat, w: string) {
    && p + |w| <= |s| && s[p..p + |w|] == w
    && (p == 0 || IsSpace(s[p - 1]))
    && (p + |w| == |s| || IsSpace(s[p + |w|]))
  }

  /** Every word `str.split()` returns is a maximal run of non-whitespace
      characters of the text. */
  lemma {:induction false} SplitMaximalRuns(s: string, i: nat)
    requires i < |Split(s)|
    ensures exists p: nat :: MaximalRunAt(s, p, Split(s)[i])
    decreases |s|
  {
    var w := Split(s)[i];
    if IsSpace(s[0]) {
      SplitMaximalRuns(s[1..], i);
      var q: nat :| MaximalRunAt(s[1..], q, w);
      RunShift(s, 1, q, w);
    } else {
      var w0 := TakeWord(s);
      var rest := s[|w0|..];
      if i == 0 {
        assert MaximalRunAt(s, 0, w0);
      } else {
        assert w == Split(rest)[i - 1] && IsWord(w);
        SplitMaximalRuns(rest, i - 1);
        var q: nat :| MaximalRunAt(rest, q, w);
        assert w[0] in w;
        RunShift(s, |w0|, q, w);
      }
    }
  }

  /** A maximal run of a suffix is one of the whole text, unless it starts
      the suffix right after a non-whitespace character. */
  lemma RunShift(s: string, k: nat, q: nat, w: string)
    requires k <= |s| && MaximalRunAt(s[k..], q, w)
    requires q > 0 || k == 0 || IsSpace(s[k - 1])
    ensures MaximalRunAt(s, k + q, w)
  {
    var t := s[k..];
    assert s[k + q..k + q + |w|] == t[q..q + |w|];
    assert q > 0 ==> s[k + q - 1] == t[q - 1];
    assert q + |w| < |t| ==> s[k + q + |w|] == t[q + |w|];
  }

  /** `' '.join(ws)`. */
  function Join(ws: seq<string>): string {
    if |ws| == 0 then ""
    else if |ws| == 1 then ws[0]
    else ws[0] + " " + Join(ws[1..])
  }

  /** The non-whitespace characters of `s`, in order. */
  function NonSpace(s: string): string {
    if |s| == 0 then [] else (if IsSpace(s[0]) then [] else [s[0]]) + NonSpace(s[1..])
  }

  function Concat(ws: seq<string>): string {
    if |ws| == 0 then [] else ws[0] + Concat(ws[1..])
  }

  lemma {:induction false} NonSpaceAppend(a: string, b: string)
    ensures NonSpace(a + b) == NonSpace(a) + NonSpace(b)
  {
    if |a| == 0 {
      assert a + b == b;
    } else {
      assert (a + b)[0] == a[0];
      assert (a + b)[1..] == a[1..] + b;
      NonSpaceAppend(a[1..], b);
    }
  }

  lemma {:induction false} NonSpaceOfWord(w: string)
    requires forall c :: c in w ==> !IsSpace(c)
    ensures NonSpace(w) == w
  {
    if |w| > 0 {
      assert w[0] in w;
      assert forall c :: c in w[1..] ==> c in w;
      NonSpaceOfWord(w[1..]);
      assert [w[0]] + w[1..] == w;
    }
  }

  /** Splitting loses the whitespace and nothing else: the words, put
      together, are the text's other characters in order. */
  lemma {:induction false} SplitKeepsCharacters(s: string)
    ensures Concat(Split(s)) == NonSpace(s)
    decreases |s|
  {
    if |s| > 0 {
      if IsSpace(s[0]) {
        SplitKeepsCharacters(s[1..]);
      } else {
        var w := TakeWord(s);
        var rest := s[|w|..];
        SplitKeepsCharacters(rest);
        assert s == w + rest;
        NonSpaceAppend(w, rest);
        NonSpaceOfWord(w);
        assert ([w] + Split(rest))[1..] == Split(rest);
      }
    }
  }

  lemma {:induction false} TakeWordBeforeSpace(w: string, t: string)
    requires forall c :: c in w ==> !IsSpace(c)
    requires |t| == 0 || IsSpace(t[0])
    ensures TakeWord(w + t) == w
  {
    if |w| > 0 {
      assert w[0] in w;
      assert forall c :: c in w[1..] ==> c in w;
      assert (w + t)[1..] == w[1..] + t;
      TakeWordBeforeSpace(w[1..], t);
    }
  }

  /** Joining words with single spaces and splitting again gives the words
      back. */
  lemma {:induction false} SplitJoin(ws: seq<string>)
    requires AllWords(ws)
    ensures Split(Join(ws)) == ws
  {
    if |ws| == 1 {
      var w := ws[0];
      TakeWordBeforeSpace(w, []);
      assert w + [] == w;
      assert w[|w|..] == [];
    } else if |ws| > 1 {
      var w := ws[0];
      var rest := " " + Join(ws[1..]);
      assert Join(ws) == w + rest;
      TakeWordBeforeSpace(w, rest);
      assert (w + rest)[|w|..] == rest;
      assert rest[1..] == Join(ws[1..]);
      SplitJoin(ws[1..]);
      assert [w] + ws[1..] == ws;
    }
  }

  /** A joined text has no character the words do not have, besides the
      separating spaces. */
  lemma {:induction false} JoinCharacters(ws: seq<string>, c: char)
    requires c in Join(ws)
    ensures c == ' ' || exists i :: 0 <= i < |ws| && c in ws[i]
  {
    if |ws| > 1 {
      if c !in ws[0] && c != ' ' {
        assert c in Join(ws[1..]);
        JoinCharacters(ws[1..], c);
        var i :| 0 <= i < |ws[1..]| && c in ws[1..][i];
        assert c in ws[i + 1];
      }
    }
  }

  // ---------------------------------------------------------------------
  // Stop words

  /** `[word for word in words if word not in stop_words]`. */
  function Keep(ws: seq<string>, stop: set<string>): (r: seq<string>)
    ensures forall w :: w in r <==> w in ws && w !in stop
    ensures forall w :: w !in stop ==> multiset(r)[w] == multiset(ws)[w]
    ensures IsSubsequence(r, ws)
  {
    if |ws| == 0 then []
    else
      assert ws == [ws[0]] + ws[1..];
      if ws[0] in stop then Keep(ws[1..], stop)
      else [ws[0]] + Keep(ws[1..], stop)
  }

  /** `a` is `b` with some entries left out, the rest in order. */
  ghost predicate IsSubsequence<T>(a: seq<T>, b: seq<T>) {
    if |a| == 0 then true
    else if |b| == 0 then false
    else if a[0] == b[0] then IsSubsequence(a[1..], b[1..])
    else IsSubsequence(a, b[1..])
  }

  lemma {:induction false} KeepNone(ws: seq<string>, stop: set<string>)
    requires forall i :: 0 <= i < |ws| ==> ws[i] !in stop
    ensures Keep(ws, stop) == ws
  {
    if |ws| > 0 {
      KeepNone(ws[1..], stop);
      assert [ws[0]] + ws[1..] == ws;
    }
  }

  // ---------------------------------------------------------------------
  // `_clean`

  /** The words `_clean` keeps: those of the lower-cased text without
      punctuation that are not stop words. */
  function KeptWords(text: string, stop: set<string>): (ws: seq<string>)
    ensures AllWords(ws)
    ensures forall w :: w in ws ==> w !in stop
    ensures IsSubsequence(ws, Split(StripPunctuation(Lower(text))))
    ensures forall w :: w in Split(StripPunctuation(Lower(text))) && w !in stop ==> w in ws
    ensures forall w :: w !in stop ==> multiset(ws)[w] == multiset(Split(StripPunctuation(Lower(text))))[w]
  {
    var ws := Keep(Split(StripPunctuation(Lower(text))), stop);
    assert forall i :: 0 <= i < |ws| ==> IsWord(ws[i]) by {
      forall i | 0 <= i < |ws|
        ensures IsWord(ws[i])
      {
        assert ws[i] in ws;
        var s := Split(StripPunctuation(Lower(text)));
        var j :| 0 <= j < |s| && s[j] == ws[i];
      }
    }
    ws
  }

  /** `_clean`: the kept words joined by single spaces, or `none` when no
      word is kept. */
  function Clean(text: string, stop: set<string>): (r: string)
    ensures |r| > 0
    ensures Split(r) == KeptWords(text, stop) || (KeptWords(text, stop) == [] && r == "none")
    ensures Join(Split(r)) == r
    ensures forall c :: c in r ==> !IsUpper(c) && c !in Punctuation
  {
    var ws := KeptWords(text, stop);
    var j := Join(ws);
    SplitJoin(ws);
    if j == "" then
      NoneIsWord();
      "none"
    else
      CleanCharacters(text, stop);
      j
  }

  lemma NoneIsWord()
    ensures AllWords(["none"]) && Split("none") == ["none"] && Join(["none"]) == "none"
    ensures forall c :: c in "none" ==> !IsUpper(c) && c !in Punctuation
  {
    NoneLetters();
    assert IsWord("none");
    SplitJoin(["none"]);
  }

  lemma NoneLetters()
    ensures forall c :: c in "none" ==> !IsSpace(c) && !IsUpper(c) && c !in Punctuation
  {
    forall c | c in "none"
      ensures !IsSpace(c) && !IsUpper(c) && c !in Punctuation
    {
      assert "none" == ['n', 'o', 'n', 'e'];
      assert c == 'n' || c == 'o' || c == 'e';
      LettersAreNotPunctuation(c);
    }
  }

  /** No lower-case ASCII letter is punctuation. */
  lemma LettersAreNotPunctuation(c: char)
    requires 'a' <= c <= 'z'
    ensures c !in Punctuation
  {
    assert forall i :: 0 <= i < |Punctuation| ==> Punctuation[i] as int < 97 || Punctuation[i] as int > 122;
  }

  /** Every character of the kept words' join is a space or a character of
      the text after lower-casing and dropping punctuation. */
  lemma CleanCharacters(text: string, stop: set<string>)
    ensures forall c :: c in Join(KeptWords(text, stop)) ==> !IsUpper(c) && c !in Punctuation
  {
    var ws := KeptWords(text, stop);
    forall c | c in Join(ws)
      ensures !IsUpper(c) && c !in Punctuation
    {
      JoinCharacters(ws, c);
      if c != ' ' {
        var i :| 0 <= i < |ws| && c in ws[i];
        KeptWordCharacter(text, stop, i, c);
      }
    }
  }

  /** A character of a kept word is a character of the text after
      lower-casing and dropping punctuation. */
  lemma KeptWordCharacter(text: string, stop: set<string>, i: nat, c: char)
    requires i < |KeptWords(text, stop)| && c in KeptWords(text, stop)[i]
    ensures !IsUpper(c) && c !in Punctuation
  {
    var ws := KeptWords(text, stop);
    var t := StripPunctuation(Lower(text));
    var split := Split(t);
    assert ws[i] in split;
    var j :| 0 <= j < |split| && split[j] == ws[i];
    WordCharacters(t, j, c);
    var k :| 0 <= k < |Lower(text)| && Lower(text)[k] == c;
  }

  /** A character of a word of `s` is a character of `s`. */
  lemma WordCharacters(s: string, j: nat, c: char)
    requires j < |Split(s)| && c in Split(s)[j]
    ensures c in s
  {
    SplitKeepsCharacters(s);
    ConcatMember(Split(s), j, c);
    NonSpaceMember(s, c);
  }

  lemma {:induction false} ConcatMember(ws: seq<string>, j: nat, c: char)
    requires j < |ws| && c in ws[j]
    ensures c in Concat(ws)
  {
    if j > 0 {
      ConcatMember(ws[1..], j - 1, c);
    }
  }

  lemma {:induction false} NonSpaceMember(s: string, c: char)
    requires c in NonSpace(s)
    ensures c in s
  {
    if |s| > 0 && c != s[0] {
      NonSpaceMember(s[1..], c);
    }
  }

  /** Cleaning a cleaned text changes nothing, as long as `none` is not a
      stop word. */
  lemma CleanIdempotent(text: string, stop: set<string>)
    requires "none" !in stop
    ensures Clean(Clean(text, stop), stop) == Clean(text, stop)
  {
    var r := Clean(text, stop);
    var ws := Split(r);
    assert forall i :: 0 <= i < |ws| ==> ws[i] !in stop by {
      if ws != KeptWords(text, stop) {
        assert ws == ["none"];
      }
    }
    CleanOfCleaned(r, stop);
  }

  /** A non-empty text of lower-case words without punctuation or stop
      words, separated by single spaces, is its own cleaning. */
  lemma CleanOfCleaned(r: string, stop: set<string>)
    requires |r| > 0 && Join(Split(r)) == r
    requires forall c :: c in r ==> !IsUpper(c) && c !in Punctuation
    requires forall i :: 0 <= i < |Split(r)| ==> Split(r)[i] !in stop
    ensures Clean(r, stop) == r
  {
    LowerNone(r);
    StripPunctuationNone(r);
    KeepNone(Split(r), stop);
  }

  lemma LowerNone(s: string)
    requires forall c :: c in s ==> !IsUpper(c)
    ensures Lower(s) == s
  {
    forall i | 0 <= i < |s|
      ensures Lower(s)[i] == s[i]
    {
      assert s[i] in s;
    }
  }
}
