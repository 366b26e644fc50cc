/** Input normalisation applied to every incoming message before it is compared
    with commands or parsed as a menu number: lower-case, punctuation to spaces,
    whitespace runs collapsed to one space, leading and trailing whitespace
    removed.  The Unicode character classes are abstracted to the characters a
    Russian/English chat produces; see `IsSpace`, `IsWord` and `Lower`. */
module TextNorm {

  /** The characters for which Python's `str.isspace()` holds (and which the
      regular-expression class `\s` matches on `str` patterns). */
  predicate IsSpace(c: char)
  {
    || c == ' '
    || ('\t' <= c <= '\r')
    || ('\U{1C}' <= c <= '\U{1F}')
    || c == '\U{85}' || c == '\U{A0}' || c == '\U{1680}'
    || ('\U{2000}' <= c <= '\U{200A}')
    || c == '\U{2028}' || c == '\U{2029}' || c == '\U{202F}' || c == '\U{205F}'
    || c == '\U{3000}'
  }

  /** Word characters (`\w`): ASCII letters and digits, the underscore, the
      superscript digits one to three, and the basic Cyrillic block. */
  predicate IsWord(c: char)
  {
    || ('a' <= c <= 'z') || ('A' <= c <= 'Z') || ('0' <= c <= '9') || c == '_'
    || c == '\U{B2}' || c == '\U{B3}' || c == '\U{B9}'
    || ('\U{400}' <= c <= '\U{45F}')
  }

  /** `str.lower()` on one character, for Latin and Cyrillic capitals. */
  function Lower(c: char): (r: char)
    ensures IsSpace(r) == IsSpace(c)
  {
    if 'A' <= c <= 'Z' then (c as int + 0x20) as char
    else if '\U{410}' <= c <= '\U{42F}' then (c as int + 0x20) as char
    else if '\U{400}' <= c <= '\U{40F}' then (c as int + 0x50) as char
    else c
  }

  /** `str.upper()` on one character, for the lower-case letters `Lower`
      produces: Latin, basic Cyrillic, and the Cyrillic letters with the
      capitals U+0400 to U+040F. */
  function Upper(c: char): (r: char)
    ensures Lower(r) == Lower(c)
    ensures ('a' <= c <= 'z' || '\U{430}' <= c <= '\U{45F}') ==> r != c && Lower(r) == c
  {
    if 'a' <= c <= 'z' then (c as int - 0x20) as char
    else if '\U{430}' <= c <= '\U{44F}' then (c as int - 0x20) as char
    else if '\U{450}' <= c <= '\U{45F}' then (c as int - 0x50) as char
    else c
  }

  /** `u` is `w` with some of its letters upper-cased. */
  predicate CasingOf(u: string, w: string)
  {
    |u| == |w| && forall i | 0 <= i < |w| :: u[i] == w[i] || u[i] == Upper(w[i])
  }

  /** A character the normaliser can leave in its output. */
  predicate CanonicalChar(c: char)
  {
    c == ' ' || (IsWord(c) && Lower(c) == c)
  }

  /** Every character is whitespace. */
  predicate AllSpace(w: string)
  {
    forall k | 0 <= k < |w| :: IsSpace(w[k])
  }

  predicate NoDoubleSpace(s: string)
  {
    forall i | 0 <= i < |s| - 1 :: !(IsSpace(s[i]) && IsSpace(s[i + 1]))
  }

  /** The shape of every normalised message. */
  predicate Canonical(s: string)
  {
    && (s == [] || (!IsSpace(s[0]) && !IsSpace(s[|s| - 1])))
    && NoDoubleSpace(s)
    && (forall c | c in s :: CanonicalChar(c))
  }

  /** `text.lower()` */
  function Lowered(s: string): (r: string)
    ensures |r| == |s|
    ensures forall c | c in r :: Lower(c) == c
    ensures forall i | 0 <= i < |s| :: Lower(r[i]) == Lower(s[i])
  {
    seq(|s|, i requires 0 <= i < |s| => Lower(s[i]))
  }

  /** `re.sub(r'[^\w\s]', ' ', text)` */
  function Depunctuated(s: string): (r: string)
    ensures |r| == |s|
    ensures forall i | 0 <= i < |s| :: r[i] == s[i] || r[i] == ' '
    ensures forall c | c in r :: IsWord(c) || IsSpace(c)
  {
    seq(|s|, i requires 0 <= i < |s| => if IsWord(s[i]) || IsSpace(s[i]) then s[i] else ' ')
  }

  /** Drops the leading whitespace: the left half of `str.strip()`, and the
      run that `\s+` consumes. */
  function TrimStart(s: string): (r: string)
    ensures |r| <= |s| && r == s[|s| - |r|..]
    ensures r == [] || !IsSpace(r[0])
    ensures s != [] && IsSpace(s[0]) ==> |r| < |s|
  {
    if s != [] && IsSpace(s[0]) then TrimStart(s[1..]) else s
  }

  /** Drops the trailing whitespace: the right half of `str.strip()`. */
  function TrimEnd(s: string): (r: string)
    ensures |r| <= |s| && r == s[..|r|]
    ensures r == [] || !IsSpace(r[|r| - 1])
  {
    if s != [] && IsSpace(s[|s| - 1]) then TrimEnd(s[..|s| - 1]) else s
  }

  /** `TrimStart` drops whitespace and nothing else. */
  lemma {:induction false} TrimStartDropsOnlySpace(s: string)
    ensures AllSpace(s[..|s| - |TrimStart(s)|])
  {
    if s != [] && IsSpace(s[0]) {
      TrimStartDropsOnlySpace(s[1..]);
      SpaceRunCons(s, |s| - |TrimStart(s)|);
    }
  }

  lemma SpaceRunCons(s: string, n: nat)
    requires 0 < n <= |s| && IsSpace(s[0]) && AllSpace(s[1..][..n - 1])
    ensures AllSpace(s[..n])
  {
    forall k | 0 <= k < n ensures IsSpace(s[..n][k]) {
      if k > 0 {
        assert s[..n][k] == s[1..][..n - 1][k - 1];
      }
    }
  }

  /** `TrimEnd` drops whitespace and nothing else. */
  lemma {:induction false} TrimEndDropsOnlySpace(s: string)
    ensures AllSpace(s[|TrimEnd(s)|..])
  {
    if s != [] && IsSpace(s[|s| - 1]) {
      TrimEndDropsOnlySpace(s[..|s| - 1]);
      SpaceRunSnoc(s, |TrimEnd(s)|);
    }
  }

  lemma SpaceRunSnoc(s: string, n: nat)
    requires n < |s| && IsSpace(s[|s| - 1]) && AllSpace(s[..|s| - 1][n..])
    ensures AllSpace(s[n..])
  {
    forall k | 0 <= k < |s| - n ensures IsSpace(s[n..][k]) {
      if k < |s| - 1 - n {
        assert s[n..][k] == s[..|s| - 1][n..][k];
      }
    }
  }

  /** A slice keeps the characters and the absence of double spaces. */
  lemma SliceKeeps(s: string, i: nat, j: nat)
    requires i <= j <= |s|
    ensures NoDoubleSpace(s) ==> NoDoubleSpace(s[i..j])
    ensures forall c | c in s[i..j] :: c in s
  {
    forall c | c in s[i..j] ensures c in s {
      var k :| 0 <= k < j - i && s[i..j][k] == c;
      assert s[i + k] == c;
    }
    if NoDoubleSpace(s) {
      forall k | 0 <= k < j - i - 1 ensures !(IsSpace(s[i..j][k]) && IsSpace(s[i..j][k + 1])) {
        assert s[i..j][k] == s[i + k] && s[i..j][k + 1] == s[i + k + 1];
      }
    }
  }

  lemma TrimStartKeeps(s: string)
    ensures NoDoubleSpace(s) ==> NoDoubleSpace(TrimStart(s))
    ensures forall c | c in TrimStart(s) :: c in s
  {
    var t := TrimStart(s);
    SuffixKeeps(s, t, |s| - |t|);
  }

  lemma SuffixKeeps(s: string, t: string, i: nat)
    requires i <= |s| && t == s[i..]
    ensures NoDoubleSpace(s) ==> NoDoubleSpace(t)
    ensures forall c | c in t :: c in s
  {
    SliceKeeps(s, i, |s|);
    assert s[i..|s|] == t;
  }

  lemma TrimEndKeeps(t: string)
    ensures NoDoubleSpace(t) ==> NoDoubleSpace(TrimEnd(t))
    ensures forall c | c in TrimEnd(t) :: c in t
    ensures TrimEnd(t) != [] ==> TrimEnd(t)[0] == t[0]
  {
    var r := TrimEnd(t);
    PrefixKeeps(t, r, |r|);
  }

  lemma PrefixKeeps(t: string, r: string, n: nat)
    requires n <= |t| && r == t[..n]
    ensures NoDoubleSpace(t) ==> NoDoubleSpace(r)
    ensures forall c | c in r :: c in t
    ensures r != [] ==> r[0] == t[0]
  {
    SliceKeeps(t, 0, n);
    assert t[0..n] == r;
  }

  /** `str.strip()` */
  function Strip(s: string): (r: string)
    ensures r == [] || (!IsSpace(r[0]) && !IsSpace(r[|r| - 1]))
    ensures NoDoubleSpace(s) ==> NoDoubleSpace(r)
    ensures forall c | c in r :: c in s
  {
    var t := TrimStart(s);
    TrimStartKeeps(s);
    TrimEndKeeps(t);
    TrimEnd(t)
  }

  /** `strip()` removes whitespace at the two ends and nothing else: the
      result is a slice of the input with only whitespace around it. */
  lemma StripRemovesOnlyEnds(s: string) returns (i: nat, j: nat)
    ensures i <= j <= |s| && Strip(s) == s[i..j]
    ensures AllSpace(s[..i]) && AllSpace(s[j..])
  {
    var t;
    i, t := TrimStartSlice(s);
    var r := TrimEndSlice(t);
    StripIs(s, t, r);
    j := PrefixOfSuffix(s, t, r, i);
  }

  lemma StripIs(s: string, t: string, r: string)
    requires t == TrimStart(s) && r == TrimEnd(t)
    ensures Strip(s) == r
  {
  }

  lemma TrimStartSlice(s: string) returns (i: nat, t: string)
    ensures t == TrimStart(s) && i <= |s| && t == s[i..] && AllSpace(s[..i])
  {
    t := TrimStart(s);
    i := |s| - |t|;
    assert t == s[i..];
    TrimStartDropsOnlySpace(s);
  }

  lemma TrimEndSlice(t: string) returns (r: string)
    ensures r == TrimEnd(t) && |r| <= |t| && r == t[..|r|] && AllSpace(t[|r|..])
  {
    r := TrimEnd(t);
    TrimEndDropsOnlySpace(t);
  }

  /** A prefix `r` of the suffix `t` of `s` that starts at `i` is the slice
      of `s` from `i`, and what follows `r` in `t` follows it in `s`. */
  lemma PrefixOfSuffix(s: string, t: string, r: string, i: nat) returns (j: nat)
    requires i <= |s| && t == s[i..]
    requires |r| <= |t| && r == t[..|r|] && AllSpace(t[|r|..])
    ensures i <= j <= |s| && r == s[i..j] && AllSpace(s[j..])
  {
    j := i + |r|;
    assert t[|r|..] == s[j..];
  }

  /** `re.sub(r'\s+', ' ', text)`: every maximal run of whitespace becomes one
      space. */
  function Collapse(s: string): (r: string)
    ensures |r| <= |s|
    ensures NoDoubleSpace(r)
    ensures forall c | c in r :: c == ' ' || (c in s && !IsSpace(c))
    ensures s != [] ==> r != []
    ensures r != [] ==> s != [] && (IsSpace(r[0]) <==> IsSpace(s[0]))
    decreases |s|
  {
    if s == [] then []
    else if IsSpace(s[0]) then [' '] + Collapse(TrimStart(s))
    else [s[0]] + Collapse(s[1..])
  }

  /** `SynologyChatBot._normalize_text` */
  function NormalizeText(raw: string): (r: string)
    ensures r == [] || (!IsSpace(r[0]) && !IsSpace(r[|r| - 1]))
    ensures NoDoubleSpace(r)
    ensures forall c | c in r :: CanonicalChar(c)
  {
    var lowered := Lowered(raw);
    var cleaned := Depunctuated(lowered);
    assert forall c | c in cleaned :: IsSpace(c) || CanonicalChar(c) by {
      forall c | c in cleaned ensures IsSpace(c) || CanonicalChar(c) {
        var i :| 0 <= i < |cleaned| && cleaned[i] == c;
        assert lowered[i] in lowered;
      }
    }
    Strip(Collapse(cleaned))
  }

  /** One step of `Collapse` on a string whose only whitespace is single
      spaces: the first character is kept as it is. */
  lemma CollapseStep(s: string)
    requires s != [] && NoDoubleSpace(s)
    requires forall c | c in s :: IsSpace(c) ==> c == ' '
    ensures Collapse(s) == [s[0]] + Collapse(s[1..])
  {
    if IsSpace(s[0]) {
      assert s[0] in s;
      assert |s| > 1 ==> !IsSpace(s[1]);
      assert TrimStart(s) == s[1..];
    }
  }

  lemma {:induction false} CollapseFixed(s: string)
    requires NoDoubleSpace(s)
    requires forall c | c in s :: IsSpace(c) ==> c == ' '
    ensures Collapse(s) == s
    decreases |s|
  {
    if s != [] {
      CollapseStep(s);
      SliceKeeps(s, 1, |s|);
      assert s[1..|s|] == s[1..];
      CollapseFixed(s[1..]);
      assert s == [s[0]] + s[1..];
    }
  }

  lemma LoweredFixed(s: string)
    requires forall c | c in s :: CanonicalChar(c)
    ensures Lowered(s) == s
  {
    forall i | 0 <= i < |s| ensures Lowered(s)[i] == s[i] {
      assert CanonicalChar(s[i]);
    }
  }

  lemma DepunctuatedFixed(s: string)
    requires forall c | c in s :: CanonicalChar(c)
    ensures Depunctuated(s) == s
  {
    forall i | 0 <= i < |s| ensures Depunctuated(s)[i] == s[i] {
      assert CanonicalChar(s[i]);
    }
  }

  lemma StripFixed(s: string)
    requires s == [] || (!IsSpace(s[0]) && !IsSpace(s[|s| - 1]))
    ensures Strip(s) == s
  {
    assert TrimStart(s) == s;
  }

  /** A normalised message is left as it is by a second normalisation. */
  lemma CanonicalFixed(s: string)
    requires Canonical(s)
    ensures NormalizeText(s) == s
  {
    LoweredFixed(s);
    DepunctuatedFixed(s);
    assert forall c | c in s :: IsSpace(c) ==> c == ' ' by {
      forall c | c in s ensures IsSpace(c) ==> c == ' ' {
        assert CanonicalChar(c);
      }
    }
    CollapseFixed(s);
    StripFixed(s);
  }

  /** Normalisation ignores case: a text with some letters upper-cased
      normalises as the text itself does. */
  lemma NormalizeIgnoresCase(u: string, w: string)
    requires CasingOf(u, w)
    ensures NormalizeText(u) == NormalizeText(w)
  {
    assert Lowered(u) == Lowered(w) by {
      forall i | 0 <= i < |w| ensures Lowered(u)[i] == Lowered(w)[i] {
        assert Lower(u[i]) == Lower(w[i]);
      }
    }
  }

  /** Normalising twice is normalising once. */
  lemma NormalizeIdempotent(raw: string)
    ensures NormalizeText(NormalizeText(raw)) == NormalizeText(raw)
  {
    CanonicalFixed(NormalizeText(raw));
  }
  /** The word characters of `s`, in order. */
  function WordChars(s: string): (w: string)
    ensures |w| <= |s|
  {
    if s == [] then []
    else (if IsWord(s[0]) then [s[0]] else []) + WordChars(s[1..])
  }

  lemma {:induction false} WordCharsAppend(a: string, b: string)
    ensures WordChars(a + b) == WordChars(a) + WordChars(b)
  {
    if a != [] {
      assert (a + b)[1..] == a[1..] + b;
      WordCharsAppend(a[1..], b);
    } else {
      assert a + b == b;
    }
  }

  lemma {:induction false} WordCharsTrimStart(s: string)
    ensures WordChars(TrimStart(s)) == WordChars(s)
  {
    if s != [] && IsSpace(s[0]) {
      assert !IsWord(s[0]);
      assert TrimStart(s) == TrimStart(s[1..]);
      WordCharsTrimStart(s[1..]);
    }
  }

  lemma {:induction false} WordCharsTrimEnd(s: string)
    ensures WordChars(TrimEnd(s)) == WordChars(s)
  {
    if s != [] && IsSpace(s[|s| - 1]) {
      var init := s[..|s| - 1];
      WordCharsTrimEnd(init);
      assert s == init + [s[|s| - 1]];
      WordCharsAppend(init, [s[|s| - 1]]);
      assert WordChars([s[|s| - 1]]) == [] by {
        assert [s[|s| - 1]][1..] == [];
      }
    }
  }

  lemma WordCharsCons(c: char, s: string)
    ensures WordChars([c] + s) == (if IsWord(c) then [c] else []) + WordChars(s)
  {
    assert ([c] + s)[1..] == s;
  }

  lemma {:induction false} WordCharsCollapse(s: string)
    ensures WordChars(Collapse(s)) == WordChars(s)
    decreases |s|
  {
    if s != [] {
      if IsSpace(s[0]) {
        var t := TrimStart(s);
        assert Collapse(s) == [' '] + Collapse(t);
        WordCharsCollapse(t);
        WordCharsTrimStart(s);
        WordCharsCons(' ', Collapse(t));
      } else {
        assert Collapse(s) == [s[0]] + Collapse(s[1..]);
        WordCharsCollapse(s[1..]);
        WordCharsCons(s[0], Collapse(s[1..]));
      }
    }
  }

  lemma {:induction false} WordCharsDepunctuated(s: string)
    ensures WordChars(Depunctuated(s)) == WordChars(s)
  {
    if s != [] {
      var d := Depunctuated(s);
      assert d[1..] == Depunctuated(s[1..]);
      WordCharsDepunctuated(s[1..]);
    }
  }

  /** Normalisation keeps every word character of the lower-cased message, in
      order, and drops nothing else but whitespace and punctuation; a message
      without word characters normalises to the empty string. */
  lemma NormalizeKeepsWords(raw: string)
    ensures WordChars(NormalizeText(raw)) == WordChars(Lowered(raw))
    ensures NormalizeText(raw) == [] <==> WordChars(Lowered(raw)) == []
  {
    var lowered := Lowered(raw);
    var cleaned := Depunctuated(lowered);
    var collapsed := Collapse(cleaned);
    WordCharsDepunctuated(lowered);
    WordCharsCollapse(cleaned);
    WordCharsTrimStart(collapsed);
    WordCharsTrimEnd(TrimStart(collapsed));
    var r := NormalizeText(raw);
    assert r == TrimEnd(TrimStart(collapsed));
    if r != [] {
      assert CanonicalChar(r[0]) && !IsSpace(r[0]) by { assert r[0] in r; }
      assert WordChars(r) != [];
    }
  }
  /** Leading whitespace before a non-space rest is dropped entirely. */
  lemma {:induction false} TrimStartSpaces(w: string, b: string)
    requires AllSpace(w)
    requires b == [] || !IsSpace(b[0])
    ensures TrimStart(w + b) == b
  {
    if w != [] {
      assert (w + b)[0] == w[0] && (w + b)[1..] == w[1..] + b;
      TrimStartSpaces(w[1..], b);
    } else {
      assert w + b == b;
    }
  }

  /** Trimming the start of `a` does not look past `a` once a non-space
      character is found in it. */
  lemma {:induction false} TrimStartAppend(a: string, t: string)
    requires TrimStart(a) != []
    ensures TrimStart(a + t) == TrimStart(a) + t
  {
    assert (a + t)[0] == a[0];
    if IsSpace(a[0]) {
      assert (a + t)[1..] == a[1..] + t;
      TrimStartAppend(a[1..], t);
    }
  }

  /** A run of whitespace between `a` and `b` becomes exactly one space, and
      the two sides are collapsed on their own. */
  lemma {:induction false} CollapseJoin(a: string, w: string, b: string)
    requires w != [] && AllSpace(w)
    requires a == [] || !IsSpace(a[|a| - 1])
    requires b == [] || !IsSpace(b[0])
    ensures Collapse(a + w + b) == Collapse(a) + " " + Collapse(b)
    decreases |a|
  {
    if a == [] {
      CollapseLeadingRun(w, b);
      EmptyFront(w, b);
    } else if IsSpace(a[0]) {
      TrimStartKeepsLast(a);
      CollapseJoin(TrimStart(a), w, b);
      CollapseJoinSpaceHead(a, w, b);
    } else {
      assert a[1..] == [] || a[1..][|a| - 2] == a[|a| - 1];
      CollapseJoin(a[1..], w, b);
      CollapseJoinWordHead(a, w, b);
    }
  }

  /** A run of whitespace at the front becomes one space. */
  lemma CollapseLeadingRun(w: string, b: string)
    requires w != [] && AllSpace(w)
    requires b == [] || !IsSpace(b[0])
    ensures Collapse(w + b) == [] + " " + Collapse(b)
  {
    assert (w + b)[0] == w[0];
    TrimStartSpaces(w, b);
    SpaceFront(Collapse(b));
  }

  /** Trimming the front of a string that ends in a non-space character
      leaves that last character in place. */
  lemma TrimStartKeepsLast(a: string)
    requires a != [] && !IsSpace(a[|a| - 1])
    ensures TrimStart(a) != [] && !IsSpace(TrimStart(a)[|TrimStart(a)| - 1])
  {
    var t := TrimStart(a);
    TrimStartDropsOnlySpace(a);
    SpaceSuffixKeepsLast(a, t, |a| - |t|);
  }

  lemma SpaceSuffixKeepsLast(a: string, t: string, n: nat)
    requires n <= |a| && t == a[n..] && AllSpace(a[..n])
    requires a != [] && !IsSpace(a[|a| - 1])
    ensures t != [] && t[|t| - 1] == a[|a| - 1]
  {
    NotAllSpace(a);
  }

  lemma NotAllSpace(x: string)
    requires x != [] && !IsSpace(x[|x| - 1])
    ensures !AllSpace(x) && !AllSpace(x[..|x|])
  {
    assert x[..|x|] == x;
  }

  lemma CollapseJoinSpaceHead(a: string, w: string, b: string)
    requires a != [] && IsSpace(a[0]) && TrimStart(a) != []
    requires Collapse(TrimStart(a) + w + b) == Collapse(TrimStart(a)) + " " + Collapse(b)
    ensures Collapse(a + w + b) == Collapse(a) + " " + Collapse(b)
  {
    var t := TrimStart(a);
    Regroup(a, w, b);
    Regroup(t, w, b);
    TrimStartAppend(a, w + b);
    ConsJoin(' ', Collapse(t), Collapse(b));
  }

  lemma CollapseJoinWordHead(a: string, w: string, b: string)
    requires a != [] && !IsSpace(a[0])
    requires Collapse(a[1..] + w + b) == Collapse(a[1..]) + " " + Collapse(b)
    ensures Collapse(a + w + b) == Collapse(a) + " " + Collapse(b)
  {
    Regroup(a, w, b);
    ConsJoin(a[0], Collapse(a[1..]), Collapse(b));
  }

  /** Sequence facts the proofs above use, kept apart from the
      normalisation functions. */
  lemma EmptyFront(w: string, b: string)
    ensures [] + w + b == w + b
  {
  }

  lemma Regroup(a: string, w: string, b: string)
    ensures a + w + b == a + (w + b)
    ensures a != [] ==> (a + w + b)[0] == a[0] && (a + w + b)[1..] == a[1..] + w + b
  {
  }

  lemma SpaceFront(q: string)
    ensures [' '] + q == [] + " " + q
  {
  }

  lemma ConsJoin(c: char, p: string, q: string)
    ensures [c] + (p + " " + q) == [c] + p + " " + q
  {
  }

  /** A non-empty run of lower-case word characters without spaces. */
  predicate PlainWord(u: string)
  {
    u != [] && forall k | 0 <= k < |u| :: IsWord(u[k]) && Lower(u[k]) == u[k]
  }

  /** A non-empty run of characters that are not word characters:
      punctuation and whitespace. */
  predicate Separator(p: string)
  {
    p != [] && forall k | 0 <= k < |p| :: !IsWord(p[k])
  }

  lemma LoweredDepunctuatedJoin(u: string, p: string, v: string)
    requires PlainWord(u) && Separator(p) && PlainWord(v)
    ensures Depunctuated(Lowered(u + p + v)) == u + Depunctuated(p) + v
    ensures AllSpace(Depunctuated(p))
  {
    var x := u + p + v;
    assert Lowered(x) == x;
    var d := Depunctuated(p);
    forall k | 0 <= k < |x| ensures Depunctuated(x)[k] == (u + d + v)[k] {
      if k < |u| {
        assert x[k] == u[k];
      } else if k < |u| + |p| {
        assert x[k] == p[k - |u|];
      } else {
        assert x[k] == v[k - |u| - |p|];
      }
    }
  }

  lemma CollapseStripJoin(u: string, w: string, v: string)
    requires PlainWord(u) && PlainWord(v)
    requires w != [] && AllSpace(w)
    ensures Strip(Collapse(u + w + v)) == u + " " + v
  {
    PlainWordFixed(u);
    PlainWordFixed(v);
    CollapseJoin(u, w, v);
    JoinEnds(u, v);
    StripFixed(u + " " + v);
  }

  /** A plain word has no whitespace and is left as it is by the collapse. */
  lemma PlainWordFixed(u: string)
    requires PlainWord(u)
    ensures !IsSpace(u[0]) && !IsSpace(u[|u| - 1]) && Collapse(u) == u
  {
    forall c | c in u ensures !IsSpace(c) {
      var k :| 0 <= k < |u| && u[k] == c;
    }
    CollapseFixed(u);
  }

  lemma JoinEnds(u: string, v: string)
    requires u != [] && v != []
    ensures (u + " " + v)[0] == u[0] && (u + " " + v)[|u + " " + v| - 1] == v[|v| - 1]
  {
  }

  /** Two words separated by any punctuation and whitespace normalise to the
      two words with exactly one space between them. */
  lemma NormalizeJoin(u: string, p: string, v: string)
    requires PlainWord(u) && Separator(p) && PlainWord(v)
    ensures NormalizeText(u + p + v) == u + " " + v
  {
    LoweredDepunctuatedJoin(u, p, v);
    CollapseStripJoin(u, Depunctuated(p), v);
  }

  /** `"1,2"` reads as the two numbers one and two, not as twelve. */
  lemma CommaSeparatesNumbers()
    ensures NormalizeText("1,2") == "1 2"
  {
    assert "1" + "," + "2" == "1,2" && "1" + " " + "2" == "1 2";
    NormalizeJoin("1", ",", "2");
  }
}
