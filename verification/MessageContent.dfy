/** What the anti-spam layer reads off a message's text: a fingerprint that survives
    stretched letters, punctuation and spacing, the comparison of fingerprints, and the
    two scans for repeated lines and repeated characters. */
module MessageContent {
  // Which characters are letters or digits. The blank and the null character are not.
  type Alphabet = alnum: char -> bool | !alnum(' ') && !alnum('\0') witness c => 'a' <= c <= 'z'

  // ----- The fingerprint -----

  datatype Scan = Scan(out: string, space: bool, last: char, run: nat)

  function Start(): Scan {
    Scan("", true, '\0', 0)
  }

  function Next(s: Scan, r: char, alnum: Alphabet): Scan {
    if alnum(r) then
      if r == s.last && s.run >= 2 then s.(run := s.run + 1)
      else Scan(s.out + [r], false, r, if r == s.last then s.run + 1 else 1)
    else if !s.space then s.(out := s.out + " ", space := true)
    else s
  }

  function ScanAll(body: string, alnum: Alphabet): Scan {
    if body == "" then Start() else Next(ScanAll(body[..|body| - 1], alnum), body[|body| - 1], alnum)
  }

  function TrimRight(s: string): string {
    if s != "" && s[|s| - 1] == ' ' then TrimRight(s[..|s| - 1]) else s
  }

  function TrimLeft(s: string): string {
    if s != "" && s[0] == ' ' then TrimLeft(s[1..]) else s
  }

  function Fingerprint(body: string, alnum: Alphabet): string {
    TrimRight(TrimLeft(ScanAll(body, alnum).out))
  }

  method ComputeFingerprint(body: string, alnum: Alphabet) returns (r: string)
    ensures r == Fingerprint(body, alnum)
  {
    var out, lastSpace, lastRune, run := "", true, '\0', 0;
    for i := 0 to |body|
      invariant run >= 0 && Scan(out, lastSpace, lastRune, run) == ScanAll(body[..i], alnum)
    {
      var c := body[i];
      assert body[..i + 1][..i] == body[..i];
      if alnum(c) {
        var skip := false;
        if c == lastRune {
          run := run + 1;
          skip := run > 2;
        } else {
          lastRune, run := c, 1;
        }
        if !skip {
          out := out + [c];
          lastSpace := false;
        }
      } else if !lastSpace {
        out := out + " ";
        lastSpace := true;
      }
    }
    assert body[..|body|] == body;
    r := TrimRight(TrimLeft(out));
  }

  // The text without blanks.
  function Squeezed(s: string): string {
    if s == "" then ""
    else if s[|s| - 1] == ' ' then Squeezed(s[..|s| - 1])
    else
      Squeezed(s[..|s| - 1]) + [s[|s| - 1]]
  }

  predicate TripleAt(s: string, i: nat) {
    i + 2 < |s| && s[i] == s[i + 1] && s[i + 1] == s[i + 2]
  }

  predicate GapAt(s: string, i: nat) {
    i + 1 < |s| && s[i] == ' ' && s[i + 1] == ' '
  }

  ghost predicate NoTriple(s: string) {
    forall i: nat :: !TripleAt(s, i)
  }

  // Letters, digits and single inner blanks, at most one blank at the end, and no letter
  // three times in a row even across blanks.
  ghost predicate Tidy(s: string, alnum: Alphabet) {
    CharsOk(s, alnum) && NoGap(s) && NoTriple(Squeezed(s))
  }

  ghost predicate Canonical(s: string, alnum: Alphabet) {
    Tidy(s, alnum) && (s != "" ==> s[|s| - 1] != ' ')
  }

  // What the scan's variables say about its output.
  ghost predicate Describes(s: Scan) {
    var letters := Squeezed(s.out);
    && (s.space <==> s.out == "" || s.out[|s.out| - 1] == ' ')
    && if letters == "" then s.last == '\0' && s.run == 0
       else
         && s.last == letters[|letters| - 1] && s.run >= 1
         && (s.run >= 2 <==> |letters| >= 2 && letters[|letters| - 2] == s.last)
  }

  lemma SqueezeAppend(s: string, c: char)
    ensures Squeezed(s + [c]) == if c == ' ' then Squeezed(s) else Squeezed(s) + [c]
  {
    assert (s + [c])[..|s|] == s;
  }

  ghost predicate NoGap(s: string) {
    forall i: nat :: !GapAt(s, i)
  }

  lemma GapAppend(s: string, c: char)
    requires NoGap(s) && !(s != "" && s[|s| - 1] == ' ' && c == ' ')
    ensures NoGap(s + [c])
  {
    forall i: nat
      ensures !GapAt(s + [c], i)
    {
      assert !GapAt(s, i);
    }
  }

  lemma TripleAppend(l: string, c: char)
    requires NoTriple(l) && (|l| >= 2 ==> !(l[|l| - 2] == c && l[|l| - 1] == c))
    ensures NoTriple(l + [c])
  {
    forall i: nat
      ensures !TripleAt(l + [c], i)
    {
      assert !TripleAt(l, i);
    }
  }

  ghost predicate CharsOk(s: string, alnum: Alphabet) {
    (forall i :: 0 <= i < |s| ==> alnum(s[i]) || s[i] == ' ') && (s != "" ==> s[0] != ' ')
  }

  lemma CharsAppend(s: string, c: char, alnum: Alphabet)
    requires CharsOk(s, alnum) && (alnum(c) || (c == ' ' && s != ""))
    ensures CharsOk(s + [c], alnum)
  {
  }

  lemma TidyLetter(s: string, c: char, alnum: Alphabet)
    requires Tidy(s, alnum) && alnum(c)
    requires var l := Squeezed(s); |l| >= 2 ==> !(l[|l| - 2] == c && l[|l| - 1] == c)
    ensures Tidy(s + [c], alnum)
  {
    assert c != ' ';
    CharsAppend(s, c, alnum);
    assert Squeezed(s + [c]) == Squeezed(s) + [c] by {
      SqueezeAppend(s, c);
    }
    assert NoGap(s + [c]) by {
      GapAppend(s, c);
    }
    assert NoTriple(Squeezed(s) + [c]) by {
      TripleAppend(Squeezed(s), c);
    }
  }

  lemma TidyBlank(s: string, alnum: Alphabet)
    requires Tidy(s, alnum) && s != "" && s[|s| - 1] != ' '
    ensures Tidy(s + " ", alnum)
  {
    CharsAppend(s, ' ', alnum);
    SqueezeAppend(s, ' ');
    GapAppend(s, ' ');
  }

  // A letter that is written.
  lemma WrittenDescribes(s: Scan, r: char, alnum: Alphabet)
    requires Describes(s) && alnum(r) && (r != s.last || s.run < 2)
    ensures Describes(Next(s, r, alnum))
  {
    SqueezeAppend(s.out, r);
    var t, letters := Next(s, r, alnum), Squeezed(s.out);
    assert t.out == s.out + [r] && t.out[|t.out| - 1] == r != ' ';
    assert Squeezed(t.out) == letters + [r];
  }

  lemma LetterDescribes(s: Scan, r: char, alnum: Alphabet)
    requires Describes(s) && alnum(r)
    ensures Describes(Next(s, r, alnum))
  {
    if r != s.last || s.run < 2 {
      WrittenDescribes(s, r, alnum);
    }
  }

  lemma NextDescribes(s: Scan, r: char, alnum: Alphabet)
    requires Describes(s)
    ensures Describes(Next(s, r, alnum))
  {
    if alnum(r) {
      LetterDescribes(s, r, alnum);
    } else {
      SqueezeAppend(s.out, ' ');
    }
  }

  lemma NextKeeps(s: Scan, r: char, alnum: Alphabet)
    requires Tidy(s.out, alnum) && Describes(s)
    ensures Tidy(Next(s, r, alnum).out, alnum)
  {
    if alnum(r) {
      if !(r == s.last && s.run >= 2) {
        TidyLetter(s.out, r, alnum);
      }
    } else if !s.space {
      TidyBlank(s.out, alnum);
    }
  }

  lemma {:induction false} ScanIsTidy(body: string, alnum: Alphabet)
    ensures Tidy(ScanAll(body, alnum).out, alnum) && Describes(ScanAll(body, alnum))
  {
    if body != "" {
      ScanIsTidy(body[..|body| - 1], alnum);
      NextKeeps(ScanAll(body[..|body| - 1], alnum), body[|body| - 1], alnum);
      NextDescribes(ScanAll(body[..|body| - 1], alnum), body[|body| - 1], alnum);
    }
  }

  lemma PrefixTidy(t: string, c: char, alnum: Alphabet)
    requires Tidy(t + [c], alnum)
    ensures Tidy(t, alnum)
  {
    var s := t + [c];
    SqueezeAppend(t, c);
    assert forall i :: 0 <= i < |t| ==> s[i] == t[i];
    forall i: nat
      ensures !GapAt(t, i) && !TripleAt(Squeezed(t), i)
    {
      assert !GapAt(s, i) && !TripleAt(Squeezed(s), i);
    }
  }

  lemma TrimTidy(s: string, alnum: Alphabet)
    requires Tidy(s, alnum)
    ensures TrimLeft(s) == s
    ensures Canonical(TrimRight(s), alnum)
    ensures Canonical(s, alnum) ==> TrimRight(s) == s
  {
    if s != "" && s[|s| - 1] == ' ' {
      var t := s[..|s| - 1];
      assert s == t + " ";
      SqueezeAppend(t, ' ');
      assert !GapAt(s, |t| - 1);
      PrefixTidy(t, ' ', alnum);
      assert TrimRight(s) == TrimRight(t) == t;
    }
  }

  // A tidy character after a tidy text is written as it is.
  lemma NextWrites(t: string, c: char, s: Scan, alnum: Alphabet)
    requires Tidy(t + [c], alnum) && s.out == t && Describes(s)
    ensures Next(s, c, alnum).out == t + [c]
  {
    var text := t + [c];
    assert text[|t|] == c;
    SqueezeAppend(t, c);
    if c == ' ' {
      assert t != "" ==> !GapAt(text, |t| - 1);
    } else {
      var letters := Squeezed(text);
      assert |letters| >= 3 ==> !TripleAt(letters, |letters| - 3);
    }
  }

  lemma {:induction false} ScanKeepsTidy(s: string, alnum: Alphabet)
    requires Tidy(s, alnum)
    ensures ScanAll(s, alnum).out == s
  {
    if s != "" {
      var t, c := s[..|s| - 1], s[|s| - 1];
      assert s == t + [c];
      PrefixTidy(t, c, alnum);
      ScanKeepsTidy(t, alnum);
      ScanIsTidy(t, alnum);
      NextWrites(t, c, ScanAll(t, alnum), alnum);
    }
  }

  /** The fingerprint is a canonical form: a text is its own fingerprint if and only if it
      is canonical, every fingerprint is canonical, and taking it twice changes nothing. */
  lemma FingerprintIsCanonical(body: string, alnum: Alphabet)
    ensures Canonical(Fingerprint(body, alnum), alnum)
    ensures Fingerprint(body, alnum) == body <==> Canonical(body, alnum)
    ensures Fingerprint(Fingerprint(body, alnum), alnum) == Fingerprint(body, alnum)
  {
    ScanIsTidy(body, alnum);
    TrimTidy(ScanAll(body, alnum).out, alnum);
    if Canonical(body, alnum) {
      ScanKeepsTidy(body, alnum);
      TrimTidy(body, alnum);
    }
    var f := Fingerprint(body, alnum);
    ScanKeepsTidy(f, alnum);
    TrimTidy(f, alnum);
  }

  function Letters(body: string, alnum: Alphabet): string {
    if body == "" then ""
    else
      var front, c := Letters(body[..|body| - 1], alnum), body[|body| - 1];
      if alnum(c) then front + [c] else front
  }

  // Whether the letter would be the third of its kind in a row.
  predicate IsThird(letters: string, c: char) {
    |letters| >= 2 && letters[|letters| - 1] == c && letters[|letters| - 2] == c
  }

  // The letters without the third and later copies in a row.
  function Collapsed(letters: string): string {
    if letters == "" then ""
    else
      var front, c := letters[..|letters| - 1], letters[|letters| - 1];
      if IsThird(front, c) then Collapsed(front) else Collapsed(front) + [c]
  }

  // What the scan's variables say about its input.
  ghost predicate Remembers(s: Scan, letters: string) {
    && Squeezed(s.out) == Collapsed(letters)
    && if letters == "" then s.last == '\0' && s.run == 0
       else s.last == letters[|letters| - 1] && s.run >= 1 && (s.run >= 2 <==> IsThird(letters, s.last))
  }

  lemma CollapsedAppend(letters: string, c: char)
    ensures Collapsed(letters + [c]) == if IsThird(letters, c) then Collapsed(letters) else Collapsed(letters) + [c]
  {
    assert (letters + [c])[..|letters|] == letters;
  }

  lemma LetterRemembers(s: Scan, letters: string, c: char, alnum: Alphabet)
    requires Remembers(s, letters) && alnum(c)
    ensures Remembers(Next(s, c, alnum), letters + [c])
  {
    CollapsedAppend(letters, c);
    if !(c == s.last && s.run >= 2) {
      SqueezeAppend(s.out, c);
    }
  }

  lemma NextRemembers(s: Scan, letters: string, c: char, alnum: Alphabet)
    requires Remembers(s, letters)
    ensures Remembers(Next(s, c, alnum), if alnum(c) then letters + [c] else letters)
  {
    if alnum(c) {
      LetterRemembers(s, letters, c, alnum);
    } else {
      SqueezeAppend(s.out, ' ');
    }
  }

  lemma {:induction false} ScanRemembers(body: string, alnum: Alphabet)
    ensures Remembers(ScanAll(body, alnum), Letters(body, alnum))
  {
    if body != "" {
      var front, c := body[..|body| - 1], body[|body| - 1];
      ScanRemembers(front, alnum);
      NextRemembers(ScanAll(front, alnum), Letters(front, alnum), c, alnum);
    }
  }

  lemma {:induction false} TrimKeepsLetters(s: string)
    ensures Squeezed(TrimRight(s)) == Squeezed(s)
  {
    if s != "" && s[|s| - 1] == ' ' {
      TrimKeepsLetters(s[..|s| - 1]);
    }
  }

  /** The fingerprint keeps all letters and digits in order, except third and later copies
      in a row. */
  lemma FingerprintKeepsLetters(body: string, alnum: Alphabet)
    ensures Squeezed(Fingerprint(body, alnum)) == Collapsed(Letters(body, alnum))
  {
    ScanRemembers(body, alnum);
    ScanIsTidy(body, alnum);
    TrimTidy(ScanAll(body, alnum).out, alnum);
    TrimKeepsLetters(ScanAll(body, alnum).out);
  }

  // Alike for everything that follows.
  predicate Alike(s: Scan, t: Scan) {
    s.out == t.out && s.space == t.space && s.last == t.last && (s.run == t.run || (s.run >= 2 && t.run >= 2))
  }

  lemma {:induction false} AlikeStays(a: string, b: string, tail: string, alnum: Alphabet)
    requires Alike(ScanAll(a, alnum), ScanAll(b, alnum))
    ensures Alike(ScanAll(a + tail, alnum), ScanAll(b + tail, alnum))
  {
    if tail == "" {
      assert a + tail == a && b + tail == b;
    } else {
      var front := tail[..|tail| - 1];
      AlikeStays(a, b, front, alnum);
      assert (a + tail)[..|a + tail| - 1] == a + front && (b + tail)[..|b + tail| - 1] == b + front;
    }
  }

  lemma ScanAppend(a: string, c: char, alnum: Alphabet)
    ensures ScanAll(a + [c], alnum) == Next(ScanAll(a, alnum), c, alnum)
  {
    assert (a + [c])[..|a|] == a;
  }

  /** Stretching does not help: a third copy of a letter changes no fingerprint, even with
      other characters than letters and digits between the copies. */
  lemma StretchingIsIgnored(head: string, c: char, between: string, tail: string, alnum: Alphabet)
    requires alnum(c) && forall i :: 0 <= i < |between| ==> !alnum(between[i])
    ensures Fingerprint(head + [c, c] + between + [c] + tail, alnum) == Fingerprint(head + [c, c] + between + tail, alnum)
  {
    var twice := head + [c] + [c];
    assert head + [c, c] == twice;
    ScanAppend(head, c, alnum);
    ScanAppend(head + [c], c, alnum);
    BetweenKeeps(twice, c, between, alnum);
    ScanAppend(twice + between, c, alnum);
    AlikeStays(twice + between + [c], twice + between, tail, alnum);
  }

  lemma {:induction false} BetweenKeeps(a: string, c: char, between: string, alnum: Alphabet)
    requires ScanAll(a, alnum).last == c && ScanAll(a, alnum).run >= 2
    requires forall i :: 0 <= i < |between| ==> !alnum(between[i])
    ensures ScanAll(a + between, alnum).last == c && ScanAll(a + between, alnum).run >= 2
  {
    if between == "" {
      assert a + between == a;
    } else {
      var front := between[..|between| - 1];
      BetweenKeeps(a, c, front, alnum);
      assert a + between == (a + front) + [between[|between| - 1]];
      ScanAppend(a + front, between[|between| - 1], alnum);
    }
  }

  // ----- Comparing fingerprints -----

  // The words of a fingerprint that are longer than two characters.
  function LongWords(s: string): set<string> {
    set i, j | 0 <= i < j <= |s| && IsWord(s, i, j) && j - i > 2 :: s[i..j]
  }

  predicate IsWord(s: string, i: nat, j: nat)
    requires i < j <= |s|
  {
    && (i == 0 || s[i - 1] == ' ') && (j == |s| || s[j] == ' ')
    && forall k :: i <= k < j ==> s[k] != ' '
  }

  // The word stands in the text, with blanks or the ends of the text on both sides.
  ghost predicate Stands(s: string, head: string, w: string, tail: string) {
    && s == head + w + tail && ' ' !in w
    && (head == "" || head[|head| - 1] == ' ') && (tail == "" || tail[0] == ' ')
  }

  lemma WordStands(s: string, i: nat, j: nat)
    requires i < j <= |s| && IsWord(s, i, j)
    ensures Stands(s, s[..i], s[i..j], s[j..])
  {
    assert s == s[..i] + s[i..j] + s[j..];
  }

  lemma StandingIsWord(s: string, head: string, w: string, tail: string)
    requires Stands(s, head, w, tail) && w != ""
    ensures s[|head|..|head| + |w|] == w && IsWord(s, |head|, |head| + |w|)
  {
    assert forall k :: |head| <= k < |head| + |w| ==> s[k] == w[k - |head|];
  }

  lemma WordIsLong(s: string, i: nat, j: nat)
    requires i < j <= |s| && IsWord(s, i, j) && j - i >= 3
    ensures s[i..j] in LongWords(s)
  {
  }

  /** The long words of a text are those of at least three characters that stand in it. */
  lemma LongWordsStand(s: string, w: string)
    ensures w in LongWords(s) <==> |w| >= 3 && exists head, tail :: Stands(s, head, w, tail)
  {
    if w in LongWords(s) {
      var i: nat, j: nat :| i < j <= |s| && IsWord(s, i, j) && j - i > 2 && w == s[i..j];
      WordStands(s, i, j);
    }
    forall head, tail | Stands(s, head, w, tail) && |w| >= 3
      ensures w in LongWords(s)
    {
      StandingIsWord(s, head, w, tail);
      WordIsLong(s, |head|, |head| + |w|);
    }
  }

  // The shared words make up at least 84 percent of the longer list of words.
  predicate SharesWords(left: set<string>, right: set<string>) {
    left != {} && right != {} && 100 * |left * right| >= 84 * Larger(|left|, |right|)
  }

  function Larger(a: nat, b: nat): nat {
    if b > a then b else a
  }

  predicate OccursAt(s: string, part: string, i: nat) {
    i + |part| <= |s| && s[i..i + |part|] == part
  }

  predicate Contains(s: string, part: string) {
    exists i: nat | i <= |s| :: OccursAt(s, part, i)
  }

  predicate NearlySame(left: string, right: string) {
    && left != "" && right != ""
    && (|| left == right || Squeezed(left) == Squeezed(right)
        || SharesWords(LongWords(left), LongWords(right))
        || ((if |left| < |right| then |right| - |left| else |left| - |right|) <= 4 && (Contains(left, right) || Contains(right, left))))
  }

  // Counts the shared words one by one.
  method SharedWords(left: set<string>, right: set<string>) returns (enough: bool)
    ensures enough == SharesWords(left, right)
  {
    if left == {} || right == {} {
      return false;
    }
    var shared, todo := 0, left;
    while todo != {}
      invariant todo <= left && shared + |todo * right| == |left * right|
      decreases |todo|
    {
      var part :| part in todo;
      var rest := todo - {part};
      if part in right {
        assert todo * right == rest * right + {part};
        shared := shared + 1;
      } else {
        assert todo * right == rest * right;
      }
      todo := rest;
    }
    assert todo * right == {};
    var size := |left|;
    if |right| > size {
      size := |right|;
    }
    return 100 * shared >= 84 * size;
  }

  // The text is `part` with at most `extra` characters around it.
  ghost predicate Around(s: string, part: string, extra: nat) {
    exists head, tail :: |head| + |tail| <= extra && s == head + part + tail
  }

  lemma ContainsIsAround(s: string, part: string, extra: nat)
    requires |part| <= |s| <= |part| + extra
    ensures Contains(s, part) <==> Around(s, part, extra)
  {
    if Contains(s, part) {
      var i: nat :| i <= |s| && OccursAt(s, part, i);
      assert s == s[..i] + part + s[i + |part|..];
    }
    if Around(s, part, extra) {
      var head, tail :| |head| + |tail| <= extra && s == head + part + tail;
      assert OccursAt(s, part, |head|);
    }
  }

  lemma LongerIsNoPart(s: string, part: string)
    requires |s| <= |part| && Contains(s, part)
    ensures s == part
  {
    var i: nat :| i <= |s| && OccursAt(s, part, i);
    assert i == 0 && s[0..|part|] == s;
  }

  // The texts have less than 84 percent of their long words in common.
  ghost predicate FewShared(left: set<string>, right: set<string>) {
    left * right == {} || 100 * |left * right| < 84 * |left| || 100 * |left * right| < 84 * |right|
  }

  lemma FewAreNotEnough(left: set<string>, right: set<string>)
    ensures SharesWords(left, right) <==> !FewShared(left, right)
  {
  }

  /** Which texts are nearly the same: those with the same letters, with enough long words in
      common, or of which the longer one is the shorter one with at most four more
      characters around it. */
  lemma NearlySameIff(left: string, right: string)
    requires |left| >= |right|
    ensures NearlySame(left, right) <==>
      && left != "" && right != ""
      && (|| Squeezed(left) == Squeezed(right) || !FewShared(LongWords(left), LongWords(right))
          || Around(left, right, 4))
  {
    FewAreNotEnough(LongWords(left), LongWords(right));
    if |left| <= |right| + 4 {
      ContainsIsAround(left, right, 4);
    }
    if |left| <= |right| && Contains(right, left) {
      LongerIsNoPart(right, left);
    }
  }

  /** Comparing does not depend on the order; every fingerprint is nearly the same as
      itself and as any other with the same letters, however those are spaced. */
  lemma NearlySameIsSymmetric(left: string, right: string)
    ensures NearlySame(left, right) == NearlySame(right, left)
    ensures left != "" && right != "" && Squeezed(left) == Squeezed(right) ==> NearlySame(left, right)
  {
    var a, b := LongWords(left), LongWords(right);
    assert a * b == b * a;
  }

  // A message in the group, by author and fingerprint.
  datatype Posted = Posted(author: string, mark: string)

  function Near(target: string, messages: seq<Posted>): set<nat> {
    set i | 0 <= i < |messages| && NearlySame(target, messages[i].mark)
  }

  function Authors(target: string, messages: seq<Posted>): set<string> {
    set i | 0 <= i < |messages| && NearlySame(target, messages[i].mark) :: messages[i].author
  }

  // The message itself counts as similar, its author does not count as a user.
  method CountSimilar(target: string, messages: seq<Posted>) returns (similar: nat, users: nat)
    ensures target == "" ==> similar == 0 && users == 0
    ensures target != "" ==> similar == 1 + |Near(target, messages)| && users == |Authors(target, messages)|
  {
    if target == "" {
      return 0, 0;
    }
    similar := 1;
    var seen: set<string> := {};
    for i := 0 to |messages|
      invariant similar == 1 + |Near(target, messages[..i])|
      invariant seen == Authors(target, messages[..i])
    {
      NearAppend(target, messages[..i], messages[i]);
      assert messages[..i + 1] == messages[..i] + [messages[i]];
      if NearlySame(target, messages[i].mark) {
        similar := similar + 1;
        seen := seen + {messages[i].author};
      }
    }
    assert messages[..|messages|] == messages;
    users := |seen|;
  }

  lemma NearAppend(target: string, messages: seq<Posted>, m: Posted)
    ensures Near(target, messages + [m]) == if NearlySame(target, m.mark) then Near(target, messages) + {|messages|} else Near(target, messages)
    ensures |messages| !in Near(target, messages)
    ensures Authors(target, messages + [m]) == if NearlySame(target, m.mark) then Authors(target, messages) + {m.author} else Authors(target, messages)
  {
    var more := messages + [m];
    assert forall i :: 0 <= i < |messages| ==> more[i] == messages[i];
    assert more[|messages|] == m;
  }

  // ----- Repeated lines and characters -----

  // `lines` are already trimmed and in lower case; `bytes` is the encoded length of a line.
  method HasRepeatedLine(lines: seq<string>, bytes: string -> nat) returns (found: bool)
    ensures found <==> exists l :: l in lines && bytes(l) >= 8 && multiset(lines)[l] >= 4
  {
    var seen: map<string, nat> := map[];
    for i := 0 to |lines|
      invariant forall l :: l in seen <==> l in lines[..i] && bytes(l) >= 8
      invariant forall l :: l in seen ==> seen[l] == multiset(lines[..i])[l] < 4
    {
      var line := lines[i];
      assert lines[..i + 1] == lines[..i] + [line];
      if bytes(line) >= 8 {
        seen := seen[line := (if line in seen then seen[line] else 0) + 1];
        if seen[line] >= 4 {
          assert lines == lines[..i + 1] + lines[i + 1..];
          return true;
        }
      }
    }
    assert lines[..|lines|] == lines;
    return false;
  }

  // The `n` characters before position `i` are all the same.
  ghost predicate SameRun(s: string, i: nat, n: nat) {
    n <= i <= |s| && forall k, l :: i - n <= k < l < i ==> s[k] == s[l]
  }

  method DominantRepeatedRune(body: string) returns (found: bool)
    ensures found <==> exists i: nat | i <= |body| :: SameRun(body, i, 25)
  {
    var last, run := '\0', 0;
    for i := 0 to |body|
      invariant 0 <= run <= 24 && run <= i && SameRun(body, i, run)
      invariant i > 0 ==> run > 0 && last == body[i - 1]
      invariant 0 < run < i ==> body[i - run - 1] != last
      invariant forall j: nat :: j <= i ==> !SameRun(body, j, 25)
    {
      if body[i] == last {
        run := run + 1;
        assert SameRun(body, i + 1, run);
        if run > 24 {
          return true;
        }
      } else {
        last, run := body[i], 1;
      }
    }
    return false;
  }
}
