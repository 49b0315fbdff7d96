/** Masking every occurrence of a text in another, as the redactor of run records
    does (cmd/rysh/run_record.go): what is shown, what is counted, and which texts
    can come back across the border of a mask. */
module Masking {
  import opened Text

  // ---------------------------------------------------------------- pieces

  /** A text cut into what is kept and what is masked. */
  datatype Piece = Keep(text: string) | Hidden(text: string, mask: string)

  function Visible(p: Piece): string { if p.Hidden? then p.mask else p.text }

  function Original(pieces: seq<Piece>): string {
    if pieces == [] then "" else pieces[0].text + Original(pieces[1..])
  }

  function Shown(pieces: seq<Piece>): string {
    if pieces == [] then "" else Visible(pieces[0]) + Shown(pieces[1..])
  }

  function Masked(pieces: seq<Piece>): nat {
    if pieces == [] then 0 else (if pieces[0].Hidden? then 1 else 0) + Masked(pieces[1..])
  }

  lemma {:induction false} OriginalConcat(a: seq<Piece>, b: seq<Piece>)
    ensures Original(a + b) == Original(a) + Original(b)
  {
    if a == [] {
      assert a + b == b;
    } else {
      OriginalConcat(a[1..], b);
      assert (a + b)[0] == a[0] && (a + b)[1..] == a[1..] + b;
      ShownAssoc(a[0].text, Original(a[1..]), Original(b));
    }
  }

  lemma {:induction false} ShownConcat(a: seq<Piece>, b: seq<Piece>)
    ensures Shown(a + b) == Shown(a) + Shown(b)
    decreases |a|
  {
    if a == [] {
      assert a + b == b;
    } else {
      var p, rest := a[0], a[1..];
      assert a == [p] + rest;
      ShownConcat(rest, b);
      ShownCons(p, rest + b);
      ShownCons(p, rest);
      assert a + b == [p] + (rest + b);
      ShownAssoc(Visible(p), Shown(rest), Shown(b));
    }
  }

  lemma ShownAssoc(x: string, y: string, z: string)
    ensures x + (y + z) == (x + y) + z
  {}

  lemma ShownCons(p: Piece, rest: seq<Piece>)
    ensures Shown([p] + rest) == Visible(p) + Shown(rest)
  {
    assert ([p] + rest)[1..] == rest;
  }

  lemma {:induction false} MaskedConcat(a: seq<Piece>, b: seq<Piece>)
    ensures Masked(a + b) == Masked(a) + Masked(b)
  {
    if a == [] {
      assert a + b == b;
    } else {
      MaskedConcat(a[1..], b);
      assert (a + b)[0] == a[0] && (a + b)[1..] == a[1..] + b;
    }
  }

  lemma OnePiece(p: Piece)
    ensures Original([p]) == p.text && Shown([p]) == Visible(p) && Masked([p]) == if p.Hidden? then 1 else 0
  {
    assert [p][1..] == [];
  }

  lemma TwoPieces(p: Piece, q: Piece)
    ensures Original([p, q]) == p.text + q.text && Shown([p, q]) == Visible(p) + Visible(q)
    ensures Masked([p, q]) == Masked([p]) + Masked([q])
  {
    assert [p, q] == [p] + [q];
    OnePiece(p);
    OnePiece(q);
    OriginalConcat([p], [q]);
    ShownConcat([p], [q]);
    MaskedConcat([p], [q]);
  }

  // ---------------------------------------------------------------- cutting at a needle

  lemma SuffixSplits(s: string, a: nat, b: nat)
    requires a <= b <= |s|
    ensures s[a..] == s[a..b] + s[b..]
  {}

  predicate IsWord(c: char) { IsDigit(c) || 'a' <= c <= 'z' || 'A' <= c <= 'Z' || c == '_' }

  /** The \b of Go's regexps, between s[i - 1] and s[i]. */
  predicate WordEdge(s: string, i: nat)
    requires i <= |s|
  {
    (i > 0 && IsWord(s[i - 1])) != (i < |s| && IsWord(s[i]))
  }

  /** What is looked for, whether only as a whole word, and what replaces it. */
  datatype Needle = Needle(text: string, wholeWord: bool, mask: string)

  predicate Hit(s: string, i: nat, n: Needle) {
    At(s, n.text, i) && (n.wholeWord ==> WordEdge(s, i) && WordEdge(s, i + |n.text|))
  }

  /** Leftmost, non-overlapping occurrences from i on. */
  function Cut(s: string, i: nat, n: Needle): seq<Piece>
    requires i <= |s| && n.text != ""
    decreases |s| - i
  {
    if i == |s| then []
    else if Hit(s, i, n) then [Hidden(n.text, n.mask)] + Cut(s, i + |n.text|, n)
    else [Keep(s[i..i + 1])] + Cut(s, i + 1, n)
  }

  lemma {:induction false} CutCovers(s: string, i: nat, n: Needle)
    requires i <= |s| && n.text != ""
    ensures Original(Cut(s, i, n)) == s[i..]
    decreases |s| - i
  {
    if i < |s| {
      if Hit(s, i, n) {
        CutCovers(s, i + |n.text|, n);
        SuffixSplits(s, i, i + |n.text|);
      } else {
        CutCovers(s, i + 1, n);
        SuffixSplits(s, i, i + 1);
      }
    }
  }

  /** Piece k of a cut from i on stands where it was: it is a masked hit, or one
      character at which no hit starts. */
  ghost predicate InPlace(pieces: seq<Piece>, k: nat, s: string, i: nat, n: Needle)
    requires k < |pieces|
  {
    var q := i + |Original(pieces[..k])|;
    if pieces[k].Hidden? then pieces[k] == Hidden(n.text, n.mask) && Hit(s, q, n)
    else q < |s| && !Hit(s, q, n) && pieces[k] == Keep(s[q..q + 1])
  }

  /** The pieces are s with just the needle's hits masked. */
  ghost predicate OnlyHits(pieces: seq<Piece>, s: string, n: Needle) {
    Original(pieces) == s && forall k: nat | k < |pieces| :: InPlace(pieces, k, s, 0, n)
  }

  lemma {:induction false} CutInPlace(s: string, i: nat, n: Needle, k: nat)
    requires i <= |s| && n.text != "" && k < |Cut(s, i, n)|
    ensures InPlace(Cut(s, i, n), k, s, i, n)
    decreases k
  {
    CutHead(s, i, n);
    if k > 0 {
      var head := Cut(s, i, n)[0];
      CutInPlace(s, i + |head.text|, n, k - 1);
      InPlaceBehind(head, Cut(s, i + |head.text|, n), k - 1, s, i, n);
    }
  }

  lemma CutHead(s: string, i: nat, n: Needle)
    requires i < |s| && n.text != ""
    ensures var cut := Cut(s, i, n);
            && cut != [] && i + |cut[0].text| <= |s| && cut == [cut[0]] + Cut(s, i + |cut[0].text|, n)
            && InPlace(cut, 0, s, i, n)
  {
    assert Cut(s, i, n)[..0] == [];
  }

  lemma InPlaceBehind(p: Piece, rest: seq<Piece>, k: nat, s: string, i: nat, n: Needle)
    requires k < |rest| && InPlace(rest, k, s, i + |p.text|, n)
    ensures InPlace([p] + rest, k + 1, s, i, n)
  {
    assert ([p] + rest)[..k + 1] == [p] + rest[..k];
    assert ([p] + rest[..k])[1..] == rest[..k];
  }

  lemma CutOnlyHits(s: string, n: Needle)
    requires n.text != ""
    ensures OnlyHits(Cut(s, 0, n), s, n)
  {
    CutCovers(s, 0, n);
    assert s[0..] == s;
    forall k: nat | k < |Cut(s, 0, n)| ensures InPlace(Cut(s, 0, n), k, s, 0, n) {
      CutInPlace(s, 0, n, k);
    }
  }

  /** strings.Count and the number of regexp matches: non-overlapping, leftmost first. */
  function CountHits(s: string, i: nat, n: Needle): nat
    requires i <= |s| && n.text != ""
    decreases |s| - i
  {
    if i == |s| then 0
    else if Hit(s, i, n) then 1 + CountHits(s, i + |n.text|, n)
    else CountHits(s, i + 1, n)
  }

  /** strings.ReplaceAll and ReplaceAllLiteralString, from i on. */
  function Replaced(s: string, i: nat, n: Needle): string
    requires i <= |s| && n.text != ""
    decreases |s| - i
  {
    if i == |s| then ""
    else if Hit(s, i, n) then n.mask + Replaced(s, i + |n.text|, n)
    else s[i..i + 1] + Replaced(s, i + 1, n)
  }

  /** What is shown for the hit or the character at i, and how long that was. */
  function HeadAt(s: string, i: nat, n: Needle): string
    requires i < |s|
  {
    if Hit(s, i, n) then n.mask else s[i..i + 1]
  }

  function StepAt(s: string, i: nat, n: Needle): (k: nat)
    requires i < |s| && n.text != ""
    ensures 0 < k && i + k <= |s| && Replaced(s, i, n) == HeadAt(s, i, n) + Replaced(s, i + k, n)
  {
    if Hit(s, i, n) then |n.text| else 1
  }

  /** What is counted is what the cut masks, what replaces is what it shows; and
      where nothing is counted, the text stays. */
  lemma {:induction false} CountedAreMasked(s: string, i: nat, n: Needle)
    requires i <= |s| && n.text != ""
    ensures CountHits(s, i, n) == Masked(Cut(s, i, n)) && Replaced(s, i, n) == Shown(Cut(s, i, n))
    ensures CountHits(s, i, n) == 0 ==> Replaced(s, i, n) == s[i..]
    decreases |s| - i
  {
    if i < |s| {
      var step := if Hit(s, i, n) then |n.text| else 1;
      CountedAreMasked(s, i + step, n);
      assert Cut(s, i, n)[1..] == Cut(s, i + step, n);
      SuffixSplits(s, i, i + 1);
    }
  }

  /** The next hit from i on; the end of the text if there is none. */
  function NextHit(s: string, i: nat, n: Needle): (h: nat)
    requires i <= |s|
    ensures i <= h <= |s| && (h < |s| ==> Hit(s, h, n)) && forall j | i <= j < h :: !Hit(s, j, n)
    decreases |s| - i
  {
    if i == |s| || Hit(s, i, n) then i else NextHit(s, i + 1, n)
  }

  /** How far it is. */
  function ToHit(s: string, i: nat, n: Needle): nat
    requires i <= |s|
  {
    NextHit(s, i, n) - i
  }

  /** What is shown from the hit at h on. */
  function FromHit(s: string, h: nat, n: Needle): string
    requires n.text != "" && (h < |s| ==> h + |n.text| <= |s|)
  {
    if h >= |s| then "" else n.mask + Replaced(s, h + |n.text|, n)
  }

  /** The text up to the next hit is shown as it is, and then the mask. */
  lemma {:induction false} ShownToHit(s: string, i: nat, n: Needle)
    requires i <= |s| && n.text != ""
    ensures var h := NextHit(s, i, n); Replaced(s, i, n) == s[i..h] + FromHit(s, h, n)
    decreases |s| - i
  {
    var h := NextHit(s, i, n);
    if h == i {
      AtHit(s, i, n);
    } else {
      BeforeHit(s, i, n);
      ShownToHit(s, i + 1, n);
      GrowLeft(s, i, h - i, FromHit(s, h, n), Replaced(s, i + 1, n));
    }
  }

  lemma AtHit(s: string, i: nat, n: Needle)
    requires i <= |s| && n.text != "" && NextHit(s, i, n) == i
    ensures Replaced(s, i, n) == s[i..i] + FromHit(s, i, n)
  {
    assert s[i..i] + FromHit(s, i, n) == FromHit(s, i, n);
  }

  lemma BeforeHit(s: string, i: nat, n: Needle)
    requires i <= |s| && n.text != "" && NextHit(s, i, n) > i
    ensures i < |s| && NextHit(s, i, n) == NextHit(s, i + 1, n)
    ensures Replaced(s, i, n) == s[i..i + 1] + Replaced(s, i + 1, n)
  {}

  lemma GrowLeft(s: string, i: nat, m: nat, x: string, rest: string)
    requires 0 < m && i + m <= |s| && rest == s[i + 1..i + m] + x
    ensures s[i..i + 1] + rest == s[i..i + m] + x
  {
    assert s[i..i + m] == s[i..i + 1] + s[i + 1..i + m];
  }

  lemma {:induction false} NextHitIs(s: string, i: nat, n: Needle, h: nat)
    requires i <= h <= |s| && (h < |s| ==> Hit(s, h, n)) && forall j | i <= j < h :: !Hit(s, j, n)
    ensures NextHit(s, i, n) == h
    decreases h - i
  {
    if h > i {
      NextHitIs(s, i + 1, n, h);
    }
  }

  /** With a hit at k, none before and no room for one behind. */
  lemma OneHit(s: string, k: nat, n: Needle)
    requires n.text != "" && k < |s| && Hit(s, k, n) && |s| - k < 2 * |n.text|
    requires forall j | 0 <= j < k :: !Hit(s, j, n)
    ensures Replaced(s, 0, n) == s[..k] + (n.mask + s[k + |n.text|..])
  {
    FirstHit(s, k, n);
    NoRoom(s, k + |n.text|, n);
  }

  lemma FirstHit(s: string, k: nat, n: Needle)
    requires n.text != "" && k < |s| && Hit(s, k, n) && forall j | 0 <= j < k :: !Hit(s, j, n)
    ensures Replaced(s, 0, n) == s[..k] + (n.mask + Replaced(s, k + |n.text|, n))
  {
    NextHitIs(s, 0, n, k);
    ShownToHit(s, 0, n);
    HitShown(s, k, n);
    assert s[0..k] == s[..k];
  }

  lemma HitShown(s: string, h: nat, n: Needle)
    requires n.text != "" && h < |s| && h + |n.text| <= |s|
    ensures FromHit(s, h, n) == n.mask + Replaced(s, h + |n.text|, n)
  {}

  lemma {:induction false} NoRoom(s: string, i: nat, n: Needle)
    requires i <= |s| && |s| - i < |n.text|
    ensures Replaced(s, i, n) == s[i..]
    decreases |s| - i
  {
    if i < |s| {
      NoRoom(s, i + 1, n);
      SuffixSplits(s, i, i + 1);
    }
  }

  // ---------------------------------------------------------------- can the needle come back?

  /** Laid over each other from the first character on, they do not differ. */
  predicate Agree(a: string, b: string) { a <= b || b <= a }

  /** Some proper end of the path agrees with the mask. */
  ghost predicate Overlaps(path: string, mask: string) {
    exists k | 0 < k < |path| :: Agree(path[k..], mask)
  }

  /** The path may be read across the border of a mask: from inside a mask on, or
      into one that follows text in which no earlier occurrence was masked. */
  ghost predicate CanComeBack(path: string, mask: string) {
    || (exists j | 0 <= j < |mask| :: Agree(mask[j..], path))
    || (exists k | 0 < k < |path| :: Agree(path[k..], mask) && NoEarlier(path, k))
  }

  ghost predicate NoEarlier(path: string, k: nat)
    requires k < |path|
  {
    forall j | 0 <= j < k :: !At(path[..k] + path, path, j)
  }

  /** Beginnings of the same text agree. */
  lemma BeginningsAgree(a: string, b: string, whole: string)
    requires a <= whole && b <= whole
    ensures Agree(a, b)
  {}

  lemma AtShift(a: string, b: string, pat: string, p: nat)
    requires At(a + b, pat, p) && p >= |a|
    ensures At(b, pat, p - |a|)
  {
    assert (a + b)[p..p + |pat|] == b[p - |a|..p - |a| + |pat|];
  }

  lemma InsideAgrees(mask: string, rest: string, path: string, p: nat)
    requires At(mask + rest, path, p) && p < |mask|
    ensures Agree(mask[p..], path)
  {
    var whole := (mask + rest)[p..];
    assert whole == mask[p..] + rest && whole[..|path|] == (mask + rest)[p..p + |path|];
    BeginningsAgree(mask[p..], path, whole);
  }

  /** A path shown from i on is in the text there, or runs into the next mask. */
  lemma PathInText(s: string, i: nat, n: Needle, path: string)
    requires i <= |s| && n.text != "" && At(Replaced(s, i, n), path, 0)
    ensures var m := ToHit(s, i, n);
            At(s, path, i) || (m < |path| && i + m < |s| && Agree(path[m..], n.mask) && path[..m] == s[i..i + m])
  {
    var m := ToHit(s, i, n);
    var shown := FromHit(s, i + m, n);
    ShownToHit(s, i, n);
    InEither(s[i..i + m], shown, path);
    if |path| <= m {
      BeginningAt(s, i, m, path);
    } else if i + m < |s| {
      HitShown(s, i + m, n);
      BeginningsAgree(path[m..], n.mask, shown);
    }
  }

  lemma BeginningAt(s: string, i: nat, m: nat, path: string)
    requires i + m <= |s| && |path| <= m && path == s[i..i + m][..|path|]
    ensures At(s, path, i)
  {
    assert s[i..i + m][..|path|] == s[i..i + |path|];
  }

  /** A text at the front of two lies in the first, or reaches into the second. */
  lemma InEither(a: string, b: string, path: string)
    requires At(a + b, path, 0)
    ensures if |path| <= |a| then path == a[..|path|] else path[..|a|] == a && path[|a|..] <= b
  {
    var ab := a + b;
    assert ab[0..|path|] == path;
    if |path| > |a| {
      assert path[..|a|] == ab[..|a|] && path[|a|..] == ab[|a|..][..|path| - |a|];
    } else {
      assert path == ab[..|path|];
    }
  }

  /** A path that overlaps the mask nowhere is gone from a text in which each of
      its occurrences was a hit. */
  lemma {:induction false} PathGone(s: string, i: nat, n: Needle, path: string, p: nat)
    requires i <= |s| && n.text != "" && n.mask != ""
    requires path != "" && path[0] !in n.mask && !Overlaps(path, n.mask)
    requires forall j: nat | At(s, path, j) :: Hit(s, j, n)
    ensures !At(Replaced(s, i, n), path, p)
    decreases |s| - i
  {
    var out := Replaced(s, i, n);
    if i < |s| && At(out, path, p) {
      if Hit(s, i, n) {
        var rest := Replaced(s, i + |n.text|, n);
        if p < |n.mask| {
          InsideAgrees(n.mask, rest, path, p);
          assert false;
        }
        AtShift(n.mask, rest, path, p);
        PathGone(s, i + |n.text|, n, path, p - |n.mask|);
      } else if p > 0 {
        AtShift(s[i..i + 1], Replaced(s, i + 1, n), path, p);
        PathGone(s, i + 1, n, path, p - 1);
      } else {
        PathInText(s, i, n, path);
      }
    }
  }

  lemma AtChar(s: string, pat: string, i: nat, c: nat)
    requires c < |pat|
    ensures At(s, pat, i) ==> i + c < |s| && s[i + c] == pat[c]
  {
    if At(s, pat, i) {
      assert s[i..i + |pat|][c] == s[i + c];
    }
  }

  /** Where the needle is shown again, it can come back. */
  lemma {:induction false} BackOnlyIfItCan(s: string, i: nat, n: Needle, p: nat)
    requires i <= |s| && n.text != "" && !n.wholeWord && At(Replaced(s, i, n), n.text, p)
    ensures CanComeBack(n.text, n.mask)
    decreases |s| - i
  {
    if i < |s| {
      var head := if Hit(s, i, n) then n.mask else s[i..i + 1];
      var step := if Hit(s, i, n) then |n.text| else 1;
      var rest := Replaced(s, i + step, n);
      if p >= |head| {
        AtShift(head, rest, n.text, p);
        BackOnlyIfItCan(s, i + step, n, p - |head|);
      } else if Hit(s, i, n) {
        InsideAgrees(n.mask, rest, n.text, p);
      } else {
        BackFromText(s, i, n);
      }
    }
  }

  lemma BackFromText(s: string, i: nat, n: Needle)
    requires i < |s| && n.text != "" && !n.wholeWord && ToHit(s, i, n) > 0 && At(Replaced(s, i, n), n.text, 0)
    ensures CanComeBack(n.text, n.mask)
  {
    var m := ToHit(s, i, n);
    assert !At(s, n.text, i) by {
      assert !Hit(s, i, n);
    }
    PathInText(s, i, n, n.text);
    NothingEarlier(s, i, n, m);
  }

  lemma SliceOfSlice(s: string, i: nat, l: nat, j: nat, k: nat)
    requires i + l <= |s| && j + k <= l
    ensures s[i..i + l][j..j + k] == s[i + j..i + j + k]
  {
    var a, b := s[i..i + l][j..j + k], s[i + j..i + j + k];
    forall c | 0 <= c < k ensures a[c] == b[c] {
      assert a[c] == s[i..i + l][j + c] == s[i + j + c];
    }
  }

  lemma NothingEarlier(s: string, i: nat, n: Needle, m: nat)
    requires !n.wholeWord && 0 < m < |n.text| && i + m <= |s| && Hit(s, i + m, n) && n.text[..m] == s[i..i + m]
    requires forall j | i <= j < i + m :: !Hit(s, j, n)
    ensures NoEarlier(n.text, m)
  {
    var h := n.text;
    var both := h[..m] + h;
    assert both == s[i..i + m + |h|];
    forall j | 0 <= j < m ensures !At(both, h, j) {
      SliceOfSlice(s, i, m + |h|, j, |h|);
      assert !Hit(s, i + j, n);
    }
  }

  /** What follows a mask to complete the path, if the mask does not reach its end. */
  function Remainder(path: string, k: int): string {
    if 0 <= k <= |path| then path[k..] else ""
  }

  /** b completes a to the whole where they agree. */
  lemma Completes(a: string, whole: string, tail: string)
    requires Agree(a, whole) && tail == Remainder(whole, |a|)
    ensures whole <= a + tail
  {}

  lemma BackFromInside(n: Needle, j: nat) returns (s: string)
    requires n.text != "" && !n.wholeWord && j < |n.mask| && Agree(n.mask[j..], n.text)
    ensures At(Replaced(s, 0, n), n.text, j)
  {
    var h := n.text;
    var tail := Remainder(h, |n.mask| - j);
    s := h + tail;
    assert At(s, h, 0) && s[|h|..] == tail;
    OneHit(s, 0, n);
    Completes(n.mask[j..], h, tail);
    AtBehind(n.mask, tail, h, j);
  }

  lemma AtBehind(a: string, tail: string, path: string, j: nat)
    requires j < |a| && path <= a[j..] + tail
    ensures At("" + (a + tail), path, j)
  {
    var out := a + tail;
    assert "" + out == out && out[j..] == a[j..] + tail;
    assert out[j..j + |path|] == out[j..][..|path|];
  }

  lemma BackIntoMask(n: Needle, k: nat) returns (s: string)
    requires n.text != "" && !n.wholeWord && 0 < k < |n.text| && Agree(n.text[k..], n.mask) && NoEarlier(n.text, k)
    ensures At(Replaced(s, 0, n), n.text, 0)
  {
    var h := n.text;
    var tail := Remainder(h[k..], |n.mask|);
    s := h[..k] + h + tail;
    HitAfterPrefix(n, k, tail);
    OneHit(s, k, n);
    Completes(n.mask, h[k..], tail);
    assert s[..k] == h[..k] && s[k + |h|..] == tail;
    assert h == h[..k] + h[k..] && h <= h[..k] + (n.mask + tail);
  }

  lemma HitAfterPrefix(n: Needle, k: nat, tail: string)
    requires n.text != "" && !n.wholeWord && k < |n.text| && NoEarlier(n.text, k)
    ensures var s := n.text[..k] + n.text + tail; Hit(s, k, n) && forall j | 0 <= j < k :: !Hit(s, j, n)
  {
    var h := n.text;
    var both := h[..k] + h;
    var s := both + tail;
    assert s[k..k + |h|] == h;
    forall j | 0 <= j < k ensures !Hit(s, j, n) {
      assert s[j..j + |h|] == both[j..j + |h|];
      assert !At(both, h, j);
    }
  }

  /** Masking can show the needle again. */
  ghost predicate ComesBack(n: Needle)
    requires n.text != ""
  {
    exists s :: Contains(Replaced(s, 0, n), n.text)
  }

  lemma ShownAgain(s: string, n: Needle, p: nat)
    requires n.text != "" && At(Replaced(s, 0, n), n.text, p)
    ensures ComesBack(n)
  {
    assert Contains(Replaced(s, 0, n), n.text);
  }

  /** For which needles that is so. */
  lemma ComesBackIffItCan(n: Needle)
    requires n.text != "" && !n.wholeWord
    ensures ComesBack(n) <==> CanComeBack(n.text, n.mask)
  {
    if ComesBack(n) {
      var s :| Contains(Replaced(s, 0, n), n.text);
      var p :| 0 <= p <= |Replaced(s, 0, n)| && At(Replaced(s, 0, n), n.text, p);
      BackOnlyIfItCan(s, 0, n, p);
    }
    if exists j | 0 <= j < |n.mask| :: Agree(n.mask[j..], n.text) {
      var j :| 0 <= j < |n.mask| && Agree(n.mask[j..], n.text);
      var s := BackFromInside(n, j);
      ShownAgain(s, n, j);
    } else if CanComeBack(n.text, n.mask) {
      var k :| 0 < k < |n.text| && Agree(n.text[k..], n.mask) && NoEarlier(n.text, k);
      var s := BackIntoMask(n, k);
      ShownAgain(s, n, 0);
    }
  }

  /** For a path whose first character is not in the mask, that is whether they overlap. */
  lemma ComesBackIffOverlaps(path: string, mask: string)
    requires path != "" && mask != "" && path[0] !in mask
    ensures CanComeBack(path, mask) <==> Overlaps(path, mask)
  {
    forall j | 0 <= j < |mask| ensures !Agree(mask[j..], path) {
      assert mask[j..][0] in mask;
    }
    forall k: nat | 0 < k < |path| && Agree(path[k..], mask) ensures NoEarlier(path, k) {
      assert path[k] == path[k..][0] == mask[0];
      NothingEarlierInPath(path, k);
    }
  }

  lemma NothingEarlierInPath(path: string, k: nat)
    requires k < |path| && path[k] != path[0]
    ensures NoEarlier(path, k)
  {
    var both := path[..k] + path;
    forall j: nat | j < k ensures !At(both, path, j) {
      AtChar(both, path, j, 0);
      AtChar(both, path, j, k);
      assert both[j] == path[j] && both[j + k] == path[j];
    }
  }

  // ---------------------------------------------------------------- can the user name come back?

  const USER_MASK := "$USER"

  /** The mask, followed by what may follow a whole word, begins like the name. */
  predicate ReadsAsMask(user: string) {
    "USER" <= user && (|user| == 4 || !IsWord(user[4]))
  }

  /** A name as login names are: of word characters at both ends, without "$". */
  predicate PlainName(user: string) {
    user != "" && IsWord(user[0]) && IsWord(user[|user| - 1]) && '$' !in user
  }

  /** A hit of the name has no word character beside it. */
  lemma BesideHit(s: string, i: nat, n: Needle)
    requires n.wholeWord && PlainName(n.text) && Hit(s, i, n)
    ensures i > 0 ==> !IsWord(s[i - 1])
    ensures i + |n.text| < |s| ==> !IsWord(s[i + |n.text|])
  {
    assert s[i..i + |n.text|][0] == s[i];
    assert s[i..i + |n.text|][|n.text| - 1] == s[i + |n.text| - 1];
  }

  /** A whole word is one with no letter, digit or underscore beside it. */
  lemma HitIsAlone(s: string, i: nat, n: Needle)
    requires n.wholeWord && PlainName(n.text)
    ensures Hit(s, i, n) <==>
              && At(s, n.text, i)
              && (i == 0 || (var c := s[i - 1];
                             !('a' <= c <= 'z' || 'A' <= c <= 'Z' || '0' <= c <= '9' || c == '_')))
              && (i + |n.text| == |s| || (var c := s[i + |n.text|];
                                          !('a' <= c <= 'z' || 'A' <= c <= 'Z' || '0' <= c <= '9' || c == '_')))
  {
    if At(s, n.text, i) {
      assert s[i..i + |n.text|][0] == s[i];
      assert s[i..i + |n.text|][|n.text| - 1] == s[i + |n.text| - 1];
    }
  }

  lemma ReadsFromMask(user: string, rest: string)
    requires PlainName(user) && user <= "USER" + rest && (rest == "" || !IsWord(rest[0]))
    ensures |user| < 4 || ReadsAsMask(user)
  {
    var whole := "USER" + rest;
    if |user| >= 4 {
      assert user[..4] == whole[..4] == "USER";
      assert |user| > 4 ==> user[4] == whole[4] == rest[0];
    }
  }

  /** Nothing that starts inside the mask reads as the name. */
  lemma NotInUserMask(left: string, rest: string, n: Needle, p: nat)
    requires n.wholeWord && n.mask == USER_MASK && PlainName(n.text) && !ReadsAsMask(n.text)
    requires rest == "" || !IsWord(rest[0])
    requires |left| <= p < |left| + |n.mask|
    ensures !Hit(left + (n.mask + rest), p, n)
  {
    var out, j := left + (n.mask + rest), p - |left|;
    MaskLetters(left, rest, n.mask);
    if j == 0 {
      AtChar(out, n.text, p, 0);
    } else if j > 1 {
      assert !WordEdge(out, p);
    } else if At(out, n.text, p) {
      ReadBehindDollar(left, rest, n);
    }
  }

  lemma MaskLetters(left: string, rest: string, mask: string)
    requires mask == USER_MASK
    ensures var out := left + (mask + rest);
            |mask| == 5 && out[|left|] == '$' && forall c | |left| < c < |left| + 5 :: IsWord(out[c])
  {
    assert forall c | 1 <= c < 5 :: IsWord(mask[c]);
    var out := left + (mask + rest);
    forall c | |left| < c < |left| + 5 ensures IsWord(out[c]) {
      assert out[c] == mask[c - |left|];
    }
  }

  /** Behind its "$" only a name that reads as the mask could be a word. */
  lemma ReadBehindDollar(left: string, rest: string, n: Needle)
    requires n.mask == USER_MASK && PlainName(n.text) && !ReadsAsMask(n.text)
    requires rest == "" || !IsWord(rest[0])
    requires At(left + (n.mask + rest), n.text, |left| + 1)
    ensures !WordEdge(left + (n.mask + rest), |left| + 1 + |n.text|)
  {
    var out, p := left + (n.mask + rest), |left| + 1;
    assert n.mask[1..] == "USER" && out[p..] == n.mask[1..] + rest;
    assert n.text == out[p..][..|n.text|];
    ReadsFromMask(n.text, rest);
    MaskLetters(left, rest, n.mask);
  }

  /** Nor does text that stands as it stood, up to the next mask. */
  lemma NotInKept(left: string, s: string, i: nat, m: nat, z: string, n: Needle)
    requires n.wholeWord && PlainName(n.text) && i < |s| && 0 < m && i + m <= |s| && !Hit(s, i, n)
    requires if i + m == |s| then z == "" else Hit(s, i + m, n) && z != "" && z[0] == '$'
    requires Before(left, s, i)
    ensures !Hit(left + (s[i..i + m] + z), |left|, n)
  {
    if At(left + (s[i..i + m] + z), n.text, |left|) {
      ReadInKept(left, s, i, m, z, n);
      SameEdges(left, s, i, m, z, left + (s[i..i + m] + z), |n.text|);
    }
  }

  lemma ReadInKept(left: string, s: string, i: nat, m: nat, z: string, n: Needle)
    requires n.wholeWord && PlainName(n.text) && i < |s| && 0 < m && i + m <= |s|
    requires if i + m == |s| then z == "" else Hit(s, i + m, n) && z != "" && z[0] == '$'
    requires At(left + (s[i..i + m] + z), n.text, |left|)
    ensures |n.text| <= m && At(s, n.text, i) && (|n.text| == m ==> i + m == |s|)
  {
    ReadsOn(left, s[i..i + m], z, n.text);
    if i + m < |s| {
      BesideHit(s, i + m, n);
    }
    EndsInKept(s, i, m, z, n);
  }

  lemma ReadsOn(left: string, kept: string, z: string, u: string)
    requires At(left + (kept + z), u, |left|)
    ensures if |u| <= |kept| then u == kept[..|u|] else u[|kept|..] <= z
  {
    AtShift(left, kept + z, u, |left|);
    InEither(kept, z, u);
  }

  lemma EndsInKept(s: string, i: nat, m: nat, z: string, n: Needle)
    requires PlainName(n.text) && i < |s| && 0 < m && i + m <= |s|
    requires if i + m == |s| then z == "" else z != "" && z[0] == '$' && !IsWord(s[i + m - 1])
    requires var u := n.text; if |u| <= m then u == s[i..i + m][..|u|] else u[m..] <= z
    ensures |n.text| <= m && At(s, n.text, i) && (|n.text| == m ==> i + m == |s|)
  {
    var u := n.text;
    if |u| <= m {
      assert s[i..i + |u|] == s[i..i + m][..|u|];
      assert s[i..i + |u|][|u| - 1] == s[i + |u| - 1];
    }
    NoDollarAhead(u, m, z);
  }

  lemma NoDollarAhead(u: string, m: nat, z: string)
    ensures '$' !in u && m < |u| && u[m..] <= z ==> z != "" && z[0] != '$'
  {
    if m < |u| {
      assert u[m..][0] == u[m];
    }
  }

  lemma SameEdges(left: string, s: string, i: nat, m: nat, z: string, all: string, e: nat)
    requires i < |s| && i + m <= |s| && 0 < e <= m && all == left + (s[i..i + m] + z)
    requires left == "" <==> i == 0
    requires i > 0 ==> IsWord(left[|left| - 1]) == IsWord(s[i - 1])
    requires e == m ==> i + m == |s| && z == ""
    ensures WordEdge(all, |left|) == WordEdge(s, i) && WordEdge(all, |left| + e) == WordEdge(s, i + e)
  {
    assert all[|left|..][..m] == s[i..i + m];
    forall j | 0 <= j < m ensures all[|left|..][j] == s[i..][j] {
      assert s[i..i + m][j] == s[i..][j] && all[|left|..][..m][j] == all[|left|..][j];
    }
    assert all[|left|..][0] == s[i..][0] && all[|left|..][e - 1] == s[i..][e - 1];
    assert e < m ==> all[|left|..][e] == s[i..][e];
  }

  /** left is what is shown before i: it ends in a word character if the text does. */
  predicate Before(left: string, s: string, i: nat)
    requires i <= |s|
  {
    (left == "" <==> i == 0) && (i > 0 ==> IsWord(left[|left| - 1]) == IsWord(s[i - 1]))
  }

  /** The needle of a name that can be masked for good. */
  predicate GoneForGood(n: Needle) {
    n.wholeWord && n.mask == USER_MASK && PlainName(n.text) && !ReadsAsMask(n.text)
  }

  lemma {:induction false} NameGone(left: string, s: string, i: nat, n: Needle, p: nat)
    requires GoneForGood(n) && i <= |s| && Before(left, s, i) && p >= |left|
    ensures !Hit(left + Replaced(s, i, n), p, n)
    decreases |s| - i
  {
    if i == |s| {
      NothingMore(left, p, n);
    } else {
      var head, next := NextShown(left, s, i, n);
      if p < |left| + |head| {
        NameNotNext(left, s, i, n, p);
      } else {
        NameGone(left + head, s, next, n, p);
        ShownAssoc(left, head, Replaced(s, next, n));
      }
    }
  }

  lemma NothingMore(left: string, p: nat, n: Needle)
    requires n.text != "" && p >= |left|
    ensures !Hit(left + "", p, n)
  {}

  lemma NextShown(left: string, s: string, i: nat, n: Needle) returns (head: string, next: nat)
    requires GoneForGood(n) && i < |s| && Before(left, s, i)
    ensures i < next <= |s| && head == HeadAt(s, i, n) && Replaced(s, i, n) == head + Replaced(s, next, n)
    ensures Before(left + head, s, next)
  {
    head, next := HeadAt(s, i, n), i + StepAt(s, i, n);
    LastShown(left, s, i, n);
  }

  lemma NameNotNext(left: string, s: string, i: nat, n: Needle, p: nat)
    requires GoneForGood(n) && i < |s| && Before(left, s, i)
    requires |left| <= p < |left| + |HeadAt(s, i, n)|
    ensures !Hit(left + Replaced(s, i, n), p, n)
  {
    if Hit(s, i, n) {
      NotInMaskShown(left, s, i, n, p);
    } else {
      NotShownNext(left, s, i, n);
    }
  }

  lemma NotInMaskShown(left: string, s: string, i: nat, n: Needle, p: nat)
    requires GoneForGood(n) && i < |s| && Hit(s, i, n) && |left| <= p < |left| + |n.mask|
    ensures !Hit(left + Replaced(s, i, n), p, n)
  {
    var rest := Replaced(s, i + |n.text|, n);
    BesideHit(s, i, n);
    StartsLikeText(s, i + |n.text|, n);
    NotInUserMask(left, rest, n, p);
    assert Replaced(s, i, n) == n.mask + rest;
  }

  /** The text shown from a character on that is no hit: kept up to the next. */
  lemma KeptPart(s: string, i: nat, n: Needle) returns (m: nat, z: string)
    requires i < |s| && n.text != "" && n.mask != "" && !Hit(s, i, n)
    ensures 0 < m && i + m <= |s| && Replaced(s, i, n) == s[i..i + m] + z
    ensures if i + m == |s| then z == "" else Hit(s, i + m, n) && z != "" && z[0] == n.mask[0]
  {
    m, z := ToHit(s, i, n), FromHit(s, NextHit(s, i, n), n);
    ShownToHit(s, i, n);
  }

  lemma NotShownNext(left: string, s: string, i: nat, n: Needle)
    requires n.wholeWord && n.mask != "" && n.mask[0] == '$' && PlainName(n.text) && i < |s| && !Hit(s, i, n)
    requires left == "" <==> i == 0
    requires i > 0 ==> IsWord(left[|left| - 1]) == IsWord(s[i - 1])
    ensures !Hit(left + Replaced(s, i, n), |left|, n)
  {
    var m, z := KeptPart(s, i, n);
    NotInKept(left, s, i, m, z, n);
  }

  lemma LastShown(left: string, s: string, i: nat, n: Needle)
    requires n.wholeWord && n.mask == "$USER" && PlainName(n.text) && i < |s|
    ensures var head := HeadAt(s, i, n);
            head != "" && IsWord((left + head)[|left + head| - 1]) == IsWord(s[i + StepAt(s, i, n) - 1])
  {
    var u := n.text;
    if Hit(s, i, n) {
      assert s[i..i + |u|][|u| - 1] == s[i + |u| - 1];
      assert n.mask[4] == 'R';
    }
  }

  lemma StartsLikeText(s: string, i: nat, n: Needle)
    requires i <= |s| && n.text != "" && n.mask != "" && n.mask[0] == '$'
    requires i < |s| ==> !IsWord(s[i])
    ensures var out := Replaced(s, i, n); out == "" || !IsWord(out[0])
  {
  }

  lemma NameBack(n: Needle) returns (s: string)
    requires n.wholeWord && n.mask == USER_MASK && PlainName(n.text) && ReadsAsMask(n.text)
    ensures Hit(Replaced(s, 0, n), 1, n)
  {
    var u := n.text;
    var tail := u[4..];
    s := u + tail;
    HitAtStart(n, tail);
    OneHit(s, 0, n);
    assert s[|u|..] == tail && s[..0] + (n.mask + tail) == n.mask + tail;
    ReadsBehindDollar(n, tail);
  }

  lemma HitAtEnd(left: string, n: Needle)
    requires n.wholeWord && PlainName(n.text) && (left == "" || !IsWord(left[|left| - 1]))
    ensures Hit(left + n.text, |left|, n)
  {
    var s := left + n.text;
    assert s[|left|..|left| + |n.text|] == n.text;
  }

  lemma HitAtStart(n: Needle, tail: string)
    requires n.wholeWord && PlainName(n.text) && (tail == "" || !IsWord(tail[0]))
    ensures Hit(n.text + tail, 0, n)
  {
    var u, s := n.text, n.text + tail;
    assert s[0..|u|] == u && s[0] == u[0] && s[|u| - 1] == u[|u| - 1];
    assert tail != "" ==> s[|u|] == tail[0];
  }

  lemma ReadsBehindDollar(n: Needle, tail: string)
    requires n.wholeWord && PlainName(n.text) && n.mask == USER_MASK && n.text == "USER" + tail
    ensures Hit(n.mask + tail, 1, n)
  {
    var u, out := n.text, n.mask + tail;
    assert out == "$" + u;
    assert out[1..1 + |u|] == u && out[1] == u[0] && out[|u|] == u[|u| - 1];
  }

  /** Masking can show the name as a word again. */
  ghost predicate NameComesBack(n: Needle)
    requires n.text != ""
  {
    exists s :: NameShown(s, n)
  }

  ghost predicate NameShown(s: string, n: Needle)
    requires n.text != ""
  {
    exists p: nat :: Hit(Replaced(s, 0, n), p, n)
  }

  /** For which names that is so. */
  lemma NameBackIffReadsAsMask(n: Needle)
    requires n.wholeWord && n.mask == USER_MASK && PlainName(n.text)
    ensures NameComesBack(n) <==> ReadsAsMask(n.text)
  {
    if ReadsAsMask(n.text) {
      var s := NameBack(n);
      assert NameShown(s, n);
    } else {
      forall s ensures !NameShown(s, n) {
        forall p: nat ensures !Hit(Replaced(s, 0, n), p, n) {
          NameGone("", s, 0, n, p);
          assert "" + Replaced(s, 0, n) == Replaced(s, 0, n);
        }
      }
    }
  }
}
