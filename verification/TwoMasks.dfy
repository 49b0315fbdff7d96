/** A home path behind two masks, its own and the user name's: when the second pass
    lets it through, or puts it together again (cmd/rysh/run_record.go). */
module TwoMasks {
  import opened Text
  import opened Masking

  /** The needle of a name that is gone for good wherever it is a word. */
  predicate NameNeedle(n: Needle) {
    GoneForGood(n)
  }

  /** The name is a word inside the path, with both its borders. */
  ghost predicate NameInside(path: string, n: Needle) {
    exists p: nat :: InsideAt(path, n, p)
  }

  predicate InsideAt(path: string, n: Needle, p: nat) {
    0 < p && p + |n.text| < |path| && Hit(path, p, n)
  }

  /** The path can be read, from k on, into the mask of a name: up to k the path is
      text in which the name is found just at k, and what follows the mask in it may
      follow a word. */
  ghost predicate ReadInto(path: string, n: Needle, k: nat) {
    && 0 < k < |path| && Agree(path[k..], n.mask)
    && Hit(path[..k] + n.text, k, n) && (forall j | 0 <= j < k :: !Hit(path[..k] + n.text, j, n))
    && (k + |n.mask| < |path| ==> !IsWord(path[k + |n.mask|]))
  }

  ghost predicate CanBeReadInto(path: string, n: Needle) {
    exists k: nat :: ReadInto(path, n, k)
  }

  // ---------------------------------------------------------------- hits in context

  /** A word stays a word in a longer text that keeps both its neighbours. */
  lemma HitInContext(s: string, a: nat, part: string, p: nat, n: Needle)
    requires a + |part| <= |s| && s[a..a + |part|] == part && n.wholeWord && n.text != ""
    requires 0 < p && p + |n.text| < |part|
    ensures Hit(s, a + p, n) <==> Hit(part, p, n)
  {
    var e := p + |n.text|;
    assert forall c | 0 <= c < |part| :: part[c] == s[a..][c];
    assert part[p - 1] == s[a..][p - 1] && part[p] == s[a..][p];
    assert part[e - 1] == s[a..][e - 1] && part[e] == s[a..][e];
    SliceOfSlice(s, a, |part|, p, |n.text|);
  }

  /** Nor is the name where a word character follows it. */
  lemma NotBeforeWord(s: string, i: nat, n: Needle)
    requires n.wholeWord && PlainName(n.text) && i + |n.text| < |s| && IsWord(s[i + |n.text|])
    ensures !Hit(s, i, n)
  {
    if Hit(s, i, n) {
      BesideHit(s, i, n);
    }
  }

  /** A text that begins a longer one and holds no hit inside is shown as it is, when
      word characters follow that do not end the name. */
  lemma NoHitUpTo(s: string, i: nat, l: nat, n: Needle, j: nat)
    requires n.wholeWord && PlainName(n.text) && i + l < |s| && i <= j < i + l
    requires forall c | i + l <= c < |s| :: IsWord(s[c])
    requires s[|s| - 1] != n.text[|n.text| - 1]
    requires Hit(s, j, n) ==> j + |n.text| >= i + l
    ensures !Hit(s, j, n)
  {
    var e := j + |n.text|;
    if At(s, n.text, j) {
      AtChar(s, n.text, j, |n.text| - 1);
      if i + l <= e < |s| {
        NotBeforeWord(s, j, n);
      }
    }
  }

  lemma ShownWhileNoHit(s: string, i: nat, l: nat, n: Needle)
    requires i + l <= |s| && n.text != "" && forall j | i <= j < i + l :: !Hit(s, j, n)
    ensures s[i..i + l] <= Replaced(s, i, n)
  {
    var m := ToHit(s, i, n);
    ShownToHit(s, i, n);
    assert i + m < |s| ==> Hit(s, i + m, n);
    assert m >= l;
    assert s[i..i + m][..l] == s[i..i + l];
  }

  // ---------------------------------------------------------------- only if

  /** What is shown of the path is text, or reads into a mask. */
  lemma {:induction false} ShownOnlyIf(s: string, i: nat, n: Needle, path: string, p: nat) returns (q: nat)
    requires NameNeedle(n) && i <= |s| && path != "" && path[0] == '/' && At(Replaced(s, i, n), path, p)
    ensures At(s, path, q) || CanBeReadInto(path, n)
    decreases |s| - i
  {
    q := 0;
    if i < |s| {
      var head, next := HeadAt(s, i, n), i + StepAt(s, i, n);
      var rest := Replaced(s, next, n);
      if p >= |head| {
        AtShift(head, rest, path, p);
        q := ShownOnlyIf(s, next, n, path, p - |head|);
      } else {
        q := ShownAtFront(s, i, n, path, p);
      }
    }
  }

  lemma ShownAtFront(s: string, i: nat, n: Needle, path: string, p: nat) returns (q: nat)
    requires NameNeedle(n) && i < |s| && path != "" && path[0] == '/' && At(Replaced(s, i, n), path, p)
    requires p < |HeadAt(s, i, n)|
    ensures At(s, path, q) || CanBeReadInto(path, n)
  {
    q := 0;
    var rest := Replaced(s, i + StepAt(s, i, n), n);
    if Hit(s, i, n) {
      InsideAgrees(n.mask, rest, path, p);
      NoSlashInMask(n.mask, p, path);
    } else {
      q := ShownHere(s, i, n, path);
    }
  }

  lemma NoSlashInMask(mask: string, p: nat, path: string)
    requires mask == USER_MASK && p < |mask| && path != "" && path[0] == '/'
    ensures !Agree(mask[p..], path)
  {
    assert mask[p..][0] == mask[p] != '/';
  }

  /** The text up to the next hit, and what is shown behind its mask. */
  lemma NextMask(s: string, i: nat, n: Needle) returns (m: nat, rest: string)
    requires i < |s| && n.text != "" && !Hit(s, i, n)
    ensures 0 < m && i + m <= |s| && forall j | i <= j < i + m :: !Hit(s, j, n)
    ensures if i + m == |s| then Replaced(s, i, n) == s[i..i + m] + ""
            else Hit(s, i + m, n) && Replaced(s, i, n) == s[i..i + m] + (n.mask + rest)
                 && rest == Replaced(s, i + m + |n.text|, n)
  {
    m := ToHit(s, i, n);
    ShownToHit(s, i, n);
    rest := if i + m < |s| then Replaced(s, i + m + |n.text|, n) else "";
  }

  lemma ShownHere(s: string, i: nat, n: Needle, path: string) returns (q: nat)
    requires NameNeedle(n) && i < |s| && !Hit(s, i, n) && path != "" && path[0] == '/' && At(Replaced(s, i, n), path, 0)
    ensures At(s, path, q) || CanBeReadInto(path, n)
  {
    q := i;
    var m, rest := NextMask(s, i, n);
    var kept := s[i..i + m];
    if i + m == |s| {
      InEither(kept, "", path);
    } else {
      InEither(kept, n.mask + rest, path);
    }
    if |path| <= m {
      assert s[i..i + |path|] == kept[..|path|];
    } else {
      RunsIntoMask(s, i, n, path, m, rest);
    }
  }

  lemma RunsIntoMask(s: string, i: nat, n: Needle, path: string, m: nat, rest: string)
    requires NameNeedle(n) && 0 < m < |path| && path[0] == '/' && i + m < |s| && path[..m] == s[i..i + m]
    requires Hit(s, i + m, n) && forall j | i <= j < i + m :: !Hit(s, j, n)
    requires path[m..] <= n.mask + rest && rest == Replaced(s, i + m + |n.text|, n)
    ensures CanBeReadInto(path, n)
  {
    NothingMaskedBefore(s, i, n, path, m);
    BeginningsAgree(path[m..], n.mask, n.mask + rest);
    BesideHit(s, i + m, n);
    StartsLikeText(s, i + m + |n.text|, n);
    AfterMask(path, m, n.mask, rest);
    assert ReadInto(path, n, m);
  }

  lemma NothingMaskedBefore(s: string, i: nat, n: Needle, path: string, m: nat)
    requires NameNeedle(n) && 0 < m < |path| && path[0] == '/' && i + m < |s| && path[..m] == s[i..i + m]
    requires Hit(s, i + m, n) && forall j | i <= j < i + m :: !Hit(s, j, n)
    ensures Hit(path[..m] + n.text, m, n) && forall j | 0 <= j < m :: !Hit(path[..m] + n.text, j, n)
  {
    var u := n.text;
    var window := path[..m] + u;
    assert s[i..i + m + |u|] == s[i..i + m] + s[i + m..i + m + |u|] == window;
    NameAtBorder(s, i, path[..m], n);
    forall j: nat | j < m ensures !Hit(window, j, n) {
      assert !Hit(s, i + j, n);
      NotInWindow(s, i, window, n, j);
    }
  }

  lemma NameAtBorder(s: string, i: nat, before: string, n: Needle)
    requires NameNeedle(n) && before != "" && i + |before| < |s| && s[i..i + |before|] == before
    requires Hit(s, i + |before|, n)
    ensures Hit(before + n.text, |before|, n)
  {
    BesideHit(s, i + |before|, n);
    assert before[|before| - 1] == s[i + |before| - 1];
    HitAtEnd(before, n);
  }

  lemma NotInWindow(s: string, i: nat, window: string, n: Needle, j: nat)
    requires NameNeedle(n) && i + |window| <= |s| && s[i..i + |window|] == window
    requires window != "" && window[0] == '/' && j + |n.text| < |window| && !Hit(s, i + j, n)
    ensures !Hit(window, j, n)
  {
    if j == 0 {
      AtChar(window, n.text, 0, 0);
    } else {
      HitInContext(s, i, window, j, n);
    }
  }

  lemma AfterMask(path: string, m: nat, mask: string, rest: string)
    requires m <= |path| && path[m..] <= mask + rest && (rest == "" || !IsWord(rest[0]))
    ensures m + |mask| < |path| ==> !IsWord(path[m + |mask|])
  {
    if m + |mask| < |path| {
      assert path[m..][|mask|] == (mask + rest)[|mask|] == rest[0];
    }
  }

  /** No name stands inside a path that is shown. */
  lemma NotInsideShown(t: string, n: Needle, path: string, p: nat)
    requires NameNeedle(n) && At(Replaced(t, 0, n), path, p)
    ensures !NameInside(path, n)
  {
    forall q: nat {
      NotThereShown(t, n, path, p, q);
    }
  }

  lemma NotThereShown(t: string, n: Needle, path: string, p: nat, q: nat)
    requires NameNeedle(n) && At(Replaced(t, 0, n), path, p)
    ensures !InsideAt(path, n, q)
  {
    if 0 < q && q + |n.text| < |path| {
      NameGoneAt(t, n, p + q);
      HitInContext(Replaced(t, 0, n), p, path, q, n);
    }
  }

  lemma NameGoneAt(t: string, n: Needle, p: nat)
    requires NameNeedle(n)
    ensures !Hit(Replaced(t, 0, n), p, n)
  {
    NameGone("", t, 0, n, p);
    assert "" + Replaced(t, 0, n) == Replaced(t, 0, n);
  }

  // ---------------------------------------------------------------- if

  /** A word character that does not end the name. */
  function Other(n: Needle): (c: char)
    requires n.text != ""
    ensures IsWord(c) && c != n.text[|n.text| - 1] && c != '$'
  {
    if n.text[|n.text| - 1] == '_' then 'x' else '_'
  }

  /** Shown by the home pass, the path is shown by the second, if no name is inside. */
  lemma PassedOn(path: string, z: string, n: Needle)
    requires NameNeedle(n) && path != "" && path[0] == '/' && !NameInside(path, n)
    requires z != "" && (forall c | 0 <= c < |z| :: IsWord(z[c])) && z[|z| - 1] == Other(n)
    ensures At(Replaced(path + z, 0, n), path, 0)
  {
    var s := path + z;
    assert forall c | |path| <= c < |s| :: s[c] == z[c - |path|];
    forall j: nat | j < |path| ensures !Hit(s, j, n) {
      NotInside(path, s, n, j);
      NoHitUpTo(s, 0, |path|, n, j);
    }
    ShownWhileNoHit(s, 0, |path|, n);
    assert s[0..|path|] == path;
  }

  lemma NotInside(path: string, s: string, n: Needle, j: nat)
    requires NameNeedle(n) && path != "" && path[0] == '/' && !NameInside(path, n) && path <= s && j < |path|
    ensures Hit(s, j, n) ==> j + |n.text| >= |path|
  {
    if j == 0 {
      AtChar(s, n.text, 0, 0);
    } else if j + |n.text| < |path| {
      HitInContext(s, 0, path, j, n);
      assert !InsideAt(path, n, j);
    }
  }

  // ---------------------------------------------------------------- shown by the home pass

  /** The two passes, the home path's first. */
  function Both(s: string, h: Needle, n: Needle): string
    requires h.text != "" && n.text != ""
  {
    Replaced(Replaced(s, 0, h), 0, n)
  }

  predicate HomeNeedle(h: Needle) {
    h.text != "" && h.text[0] == '/' && !h.wholeWord && h.mask == "$HOME"
  }

  /** A home that overlaps its own mask, shown behind both. */
  lemma BackThroughHome(h: Needle, n: Needle) returns (s: string)
    requires HomeNeedle(h) && NameNeedle(n) && !NameInside(h.text, n) && Overlaps(h.text, h.mask)
    ensures At(Both(s, h, n), h.text, 0)
  {
    var path := h.text;
    var k :| 0 < k < |path| && Agree(path[k..], h.mask);
    s := path[..k] + path + (Remainder(path[k..], |h.mask|) + [Other(n)]);
    ShownByHome(h, k, Other(n));
    LeftoverIsWord(path, k);
    PassedOn(path, Leftover(path, k, h.mask) + [Other(n)], n);
  }

  /** The home pass shows the path, with what is left of the mask and one character behind it. */
  lemma ShownByHome(h: Needle, k: nat, c: char)
    requires HomeNeedle(h) && 0 < k < |h.text| && Agree(h.text[k..], h.mask)
    ensures var path := h.text;
            Replaced(path[..k] + path + (Remainder(path[k..], |h.mask|) + [c]), 0, h)
            == path + (Leftover(path, k, h.mask) + [c])
  {
    var path := h.text;
    var tail := Remainder(path[k..], |h.mask|) + [c];
    var s := path[..k] + path + tail;
    assert path[k..][0] == path[k] == h.mask[0];
    NothingEarlierInPath(path, k);
    HitAfterPrefix(h, k, tail);
    OneHit(s, k, h);
    Apart(path[..k], path, tail);
    MaskAndTail(path, k, h.mask, [c]);
  }

  lemma Apart(a: string, b: string, c: string)
    ensures (a + b + c)[..|a|] == a && (a + b + c)[|a| + |b|..] == c
  {}

  /** What of the mask is not read as the path. */
  function Leftover(path: string, k: nat, mask: string): string
    requires k <= |path|
  {
    if |path| - k <= |mask| then mask[|path| - k..] else ""
  }

  lemma MaskAndTail(path: string, k: nat, mask: string, more: string)
    requires k <= |path| && Agree(path[k..], mask)
    ensures path[..k] + (mask + (Remainder(path[k..], |mask|) + more)) == path + (Leftover(path, k, mask) + more)
  {
    assert path == path[..k] + path[k..];
    assert mask + Remainder(path[k..], |mask|) == path[k..] + Leftover(path, k, mask);
    Assoc4(path[..k], mask, Remainder(path[k..], |mask|), more);
    Assoc4(path[..k], path[k..], Leftover(path, k, mask), more);
  }

  lemma Assoc4(a: string, b: string, c: string, d: string)
    ensures a + (b + (c + d)) == a + (b + c) + d == (a + b) + (c + d)
  {}

  lemma LeftoverIsWord(path: string, k: nat)
    requires 0 < k < |path|
    ensures forall c | 0 <= c < |Leftover(path, k, "$HOME")| :: IsWord(Leftover(path, k, "$HOME")[c])
  {
    var mask := "$HOME";
    assert forall c | 1 <= c < 5 :: IsWord(mask[c]);
    var l := Leftover(path, k, mask);
    forall c | 0 <= c < |l| ensures IsWord(l[c]) {
      assert l[c] == mask[|path| - k + c];
    }
  }

  // ---------------------------------------------------------------- put together by the second pass

  function CountDollars(s: string): nat {
    if s == "" then 0 else (if s[0] == '$' then 1 else 0) + CountDollars(s[1..])
  }

  lemma {:induction false} DollarsConcat(a: string, b: string)
    ensures CountDollars(a + b) == CountDollars(a) + CountDollars(b)
  {
    if a == "" {
      assert a + b == b;
    } else {
      assert (a + b)[1..] == a[1..] + b;
      DollarsConcat(a[1..], b);
    }
  }

  lemma {:induction false} NoDollars(s: string)
    requires '$' !in s
    ensures CountDollars(s) == 0
  {
    if s != "" {
      NoDollars(s[1..]);
    }
  }

  /** A text with fewer dollars does not hold the path. */
  lemma FewerDollars(s: string, path: string, q: nat)
    requires CountDollars(s) < CountDollars(path)
    ensures !At(s, path, q)
  {
    if At(s, path, q) {
      assert s == s[..q] + (path + s[q + |path|..]);
      DollarsConcat(s[..q], path + s[q + |path|..]);
      DollarsConcat(path, s[q + |path|..]);
    }
  }

  /** The text that shows the path when its name is masked. */
  function Preimage(path: string, n: Needle, k: nat): string
    requires k <= |path| && n.text != ""
  {
    path[..k] + n.text + After(path, n, k)
  }

  function After(path: string, n: Needle, k: nat): string
    requires n.text != ""
  {
    if k + |n.mask| < |path| then path[k + |n.mask|..] + [Other(n)] else ""
  }

  lemma PreimageHasFewer(path: string, n: Needle, k: nat)
    requires NameNeedle(n) && ReadInto(path, n, k)
    ensures CountDollars(Preimage(path, n, k)) < CountDollars(path)
  {
    assert path == path[..k] + path[k..];
    DollarsConcat(path[..k], path[k..]);
    DollarsOfThree(path[..k], n.text, After(path, n, k));
    NoDollars(n.text);
    EndHasMore(path, n, k);
  }

  lemma DollarsOfThree(a: string, b: string, c: string)
    ensures CountDollars(a + b + c) == CountDollars(a + (b + c)) == CountDollars(a) + CountDollars(b) + CountDollars(c)
  {
    assert a + b + c == a + (b + c);
    DollarsConcat(a, b + c);
    DollarsConcat(b, c);
  }

  lemma EndHasMore(path: string, n: Needle, k: nat)
    requires NameNeedle(n) && k < |path| && Agree(path[k..], n.mask)
    ensures CountDollars(After(path, n, k)) < CountDollars(path[k..])
  {
    var end := path[k..];
    assert end[0] == '$' && CountDollars(end) == 1 + CountDollars(end[1..]);
    if k + |n.mask| < |path| {
      var rest := path[k + |n.mask|..];
      assert end[|n.mask|..] == rest;
      assert end[1..] == end[1..|n.mask|] + rest;
      DollarsConcat(end[1..|n.mask|], rest);
      DollarsConcat(rest, [Other(n)]);
      NoDollars([Other(n)]);
    }
  }

  /** No hit comes before the one the path is read into. */
  lemma PreimageHit(path: string, n: Needle, k: nat)
    requires NameNeedle(n) && path != "" && path[0] == '/' && ReadInto(path, n, k)
    ensures var s := Preimage(path, n, k); Hit(s, k, n) && forall j | 0 <= j < k :: !Hit(s, j, n)
  {
    var s, window := Preimage(path, n, k), path[..k] + n.text;
    assert window <= s && s[0..|window|] == window;
    assert s[k..k + |n.text|] == n.text;
    BesideHit(window, k, n);
    assert window[k - 1] == s[k - 1];
    AtEdges(s, k, n);
    forall j: nat | j < k ensures !Hit(s, j, n) {
      if j == 0 {
        AtChar(s, n.text, 0, 0);
      } else {
        HitInContext(s, 0, window, j, n);
      }
    }
  }

  lemma AtEdges(s: string, k: nat, n: Needle)
    requires n.wholeWord && PlainName(n.text) && At(s, n.text, k) && 0 < k && !IsWord(s[k - 1])
    requires k + |n.text| < |s| ==> !IsWord(s[k + |n.text|])
    ensures Hit(s, k, n)
  {
    AtChar(s, n.text, k, 0);
    AtChar(s, n.text, k, |n.text| - 1);
  }

  /** Behind the mask, the rest of the path is shown as it is. */
  lemma RestShown(s: string, path: string, n: Needle, k: nat)
    requires NameNeedle(n) && !NameInside(path, n) && k + |n.mask| < |path|
    requires IsWord(path[k + |n.mask| - 1])
    requires k + |n.text| <= |s| && IsWord(s[k + |n.text| - 1])
    requires s[k + |n.text|..] == path[k + |n.mask|..] + [Other(n)]
    ensures path[k + |n.mask|..] <= Replaced(s, k + |n.text|, n)
  {
    PartShown(s, k + |n.text|, path, k + |n.mask|, path[k + |n.mask|..], n);
  }

  lemma PreimageTail(path: string, n: Needle, k: nat)
    requires n.text != "" && k + |n.mask| < |path|
    ensures k + |n.text| <= |Preimage(path, n, k)|
    ensures Preimage(path, n, k)[k + |n.text|..] == path[k + |n.mask|..] + [Other(n)]
  {
    BehindName(path[..k], n.text, path[k + |n.mask|..] + [Other(n)]);
  }

  lemma BehindName(a: string, u: string, rest: string)
    ensures (a + u + rest)[|a| + |u|..] == rest
  {}

  lemma BeforeRest(path: string, n: Needle, k: nat)
    requires NameNeedle(n) && k + |n.mask| < |path| && Agree(path[k..], n.mask)
    ensures IsWord(path[k + |n.mask| - 1])
    ensures IsWord(Preimage(path, n, k)[k + |n.text| - 1])
  {
    assert path[k..][4] == n.mask[4] == 'R' && path[k..][4] == path[k + 4];
    var s, u := Preimage(path, n, k), n.text;
    assert s[k..k + |u|] == u && s[k + |u| - 1] == u[|u| - 1];
  }

  /** An end of the path, behind a word character and before another. */
  lemma PartShown(s: string, i: nat, path: string, b: nat, part: string, n: Needle)
    requires NameNeedle(n) && !NameInside(path, n)
    requires 0 < i <= |s| && s[i..] == part + [Other(n)] && IsWord(s[i - 1])
    requires 0 < b && b + |part| == |path| && path[b..] == part && IsWord(path[b - 1])
    ensures part <= Replaced(s, i, n)
  {
    var l := |part|;
    assert s[i..i + l] == part && s[|s| - 1] == s[i..][l] == Other(n) && |s| == i + l + 1;
    assert path[b..b + l] == part;
    forall j: nat | i <= j < i + l ensures !Hit(s, j, n) {
      if j + |n.text| < i + l {
        PartNotInside(s, i, path, b, part, n, j);
      } else {
        NoHitUpTo(s, i, l, n, j);
      }
    }
    ShownWhileNoHit(s, i, l, n);
  }

  lemma SameInPart(s: string, i: nat, path: string, b: nat, part: string, n: Needle, d: nat)
    requires n.wholeWord && n.text != "" && 0 < d && d + |n.text| < |part|
    requires i + |part| <= |s| && s[i..i + |part|] == part && b + |part| <= |path| && path[b..b + |part|] == part
    ensures Hit(s, i + d, n) <==> Hit(path, b + d, n)
  {
    HitInContext(s, i, part, d, n);
    HitInContext(path, b, part, d, n);
  }

  lemma PartNotInside(s: string, i: nat, path: string, b: nat, part: string, n: Needle, j: nat)
    requires NameNeedle(n) && !NameInside(path, n) && i <= j && j + |n.text| < i + |part|
    requires 0 < i && i + |part| <= |s| && s[i..i + |part|] == part && IsWord(s[i - 1])
    requires 0 < b && b + |part| <= |path| && path[b..b + |part|] == part && IsWord(path[b - 1])
    ensures !Hit(s, j, n)
  {
    if j == i {
      SameStart(s, i, path, b, part, n);
    } else {
      SameInPart(s, i, path, b, part, n, j - i);
      assert !InsideAt(path, n, b + (j - i));
    }
  }

  /** At the start of what two texts share, the characters before decide alike. */
  lemma SameStart(s: string, i: nat, path: string, b: nat, part: string, n: Needle)
    requires n.wholeWord && PlainName(n.text) && |n.text| < |part|
    requires 0 < i && i + |part| <= |s| && s[i..i + |part|] == part && IsWord(s[i - 1])
    requires 0 < b && b + |part| <= |path| && path[b..b + |part|] == part && IsWord(path[b - 1])
    ensures !Hit(s, i, n) && !Hit(path, b, n)
  {
    AtChar(s, n.text, i, 0);
    AtChar(path, n.text, b, 0);
  }

  /** A home read into the mask of the name, shown behind both passes. */
  lemma BackThroughName(h: Needle, n: Needle, k: nat) returns (s: string)
    requires HomeNeedle(h) && NameNeedle(n) && !NameInside(h.text, n) && ReadInto(h.text, n, k)
    ensures At(Both(s, h, n), h.text, 0)
  {
    s := Preimage(h.text, n, k);
    PreimageIsKept(h, n, k);
    PreimageShows(h.text, n, k);
  }

  lemma PreimageIsKept(h: Needle, n: Needle, k: nat)
    requires HomeNeedle(h) && NameNeedle(n) && ReadInto(h.text, n, k)
    ensures var s := Preimage(h.text, n, k); Replaced(s, 0, h) == s
  {
    var s := Preimage(h.text, n, k);
    PreimageHasFewer(h.text, n, k);
    forall j: nat ensures !Hit(s, j, h) {
      FewerDollars(s, h.text, j);
    }
    NothingReplaced(s, 0, h);
    assert s[0..] == s;
  }

  lemma PreimageShows(path: string, n: Needle, k: nat)
    requires NameNeedle(n) && path != "" && path[0] == '/' && !NameInside(path, n) && ReadInto(path, n, k)
    ensures At(Replaced(Preimage(path, n, k), 0, n), path, 0)
  {
    var s := Preimage(path, n, k);
    PreimageHit(path, n, k);
    FirstHit(s, k, n);
    assert s[..k] == path[..k];
    if k + |n.mask| < |path| {
      PreimageTail(path, n, k);
      BeforeRest(path, n, k);
      RestShown(s, path, n, k);
    }
    PathThroughMask(path, k, n.mask, Replaced(s, k + |n.text|, n));
  }

  lemma {:induction false} NothingReplaced(s: string, i: nat, n: Needle)
    requires i <= |s| && n.text != "" && forall j: nat :: !Hit(s, j, n)
    ensures Replaced(s, i, n) == s[i..]
    decreases |s| - i
  {
    if i < |s| {
      NothingReplaced(s, i + 1, n);
      SuffixSplits(s, i, i + 1);
    }
  }

  lemma PathThroughMask(path: string, k: nat, mask: string, rest: string)
    requires k < |path| && Agree(path[k..], mask)
    requires k + |mask| < |path| ==> path[k + |mask|..] <= rest
    ensures At(path[..k] + (mask + rest), path, 0)
  {
    var out := path[..k] + (mask + rest);
    assert path == path[..k] + path[k..];
    if k + |mask| < |path| {
      assert path[k..] == mask + path[k + |mask|..];
    }
    assert path[k..] <= mask + rest;
    assert out[0..|path|] == path;
  }

  // ---------------------------------------------------------------- exactly

  ghost predicate ShownBehindBoth(h: Needle, n: Needle)
    requires h.text != "" && n.text != ""
  {
    exists s :: Contains(Both(s, h, n), h.text)
  }

  lemma OnlyIfItCan(s: string, h: Needle, n: Needle, p: nat)
    requires HomeNeedle(h) && NameNeedle(n) && At(Both(s, h, n), h.text, p)
    ensures !NameInside(h.text, n) && (Overlaps(h.text, h.mask) || CanBeReadInto(h.text, n))
  {
    var t := Replaced(s, 0, h);
    NotInsideShown(t, n, h.text, p);
    var q := ShownOnlyIf(t, 0, n, h.text, p);
    if At(t, h.text, q) {
      BackOnlyIfItCan(s, 0, h, q);
      assert '/' !in "$HOME";
      ComesBackIffOverlaps(h.text, h.mask);
    }
  }

  lemma SomeShown(s: string, h: Needle, n: Needle, p: nat)
    requires h.text != "" && n.text != "" && At(Both(s, h, n), h.text, p)
    ensures ShownBehindBoth(h, n)
  {
    assert Contains(Both(s, h, n), h.text);
  }

  /** Behind both passes an absolute home path is shown of some text if and only if
      no name stands inside it, and it overlaps its own mask or can be read into the
      name's. */
  lemma ShownBehindBothIff(h: Needle, n: Needle)
    requires HomeNeedle(h) && NameNeedle(n)
    ensures ShownBehindBoth(h, n) <==>
              !NameInside(h.text, n) && (Overlaps(h.text, h.mask) || CanBeReadInto(h.text, n))
  {
    if ShownBehindBoth(h, n) {
      var s :| Contains(Both(s, h, n), h.text);
      var p: nat :| p <= |Both(s, h, n)| && At(Both(s, h, n), h.text, p);
      OnlyIfItCan(s, h, n, p);
    }
    if !NameInside(h.text, n) {
      if Overlaps(h.text, h.mask) {
        var s := BackThroughHome(h, n);
        SomeShown(s, h, n, 0);
      } else if CanBeReadInto(h.text, n) {
        var k: nat :| ReadInto(h.text, n, k);
        var s := BackThroughName(h, n, k);
        SomeShown(s, h, n, 0);
      }
    }
  }
}
