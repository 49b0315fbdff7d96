/** Redacting a run record before it is shared (recordRedactor in
    cmd/rysh/run_record.go). */
module Redaction {
  import opened Text
  import opened Masking
  import opened TwoMasks

  /** A secret found by the detectors. */
  datatype Span = Span(start: nat, end: nat, kind: string)

  // ---------------------------------------------------------------- the detected spans

  ghost predicate SortedDisjoint(spans: seq<Span>, s: string) {
    && (forall i | 0 <= i < |spans| :: spans[i].start <= spans[i].end <= |s|)
    && (forall i | 0 <= i < |spans| - 1 :: spans[i].end <= spans[i + 1].start)
  }

  function Mask(kind: string): string { "[REDACTED:" + kind + "]" }

  function Last(spans: seq<Span>): nat {
    if spans == [] then 0 else spans[|spans| - 1].end
  }

  /** The pieces up to the end of the last span. */
  function SpanPieces(s: string, spans: seq<Span>): seq<Piece>
    requires SortedDisjoint(spans, s)
  {
    if spans == [] then []
    else
      var before, m := spans[..|spans| - 1], spans[|spans| - 1];
      assert before != [] ==> before[|before| - 1] == spans[|spans| - 2];
      SpanPieces(s, before) + [Keep(s[Last(before)..m.start]), Hidden(s[m.start..m.end], Mask(m.kind))]
  }

  lemma PrefixGrows(s: string, a: nat, b: nat, c: nat)
    requires a <= b <= c <= |s|
    ensures s[..c] == s[..a] + (s[a..b] + s[b..c])
  {}

  lemma {:induction false} SpanPiecesCover(s: string, spans: seq<Span>)
    requires SortedDisjoint(spans, s)
    ensures Last(spans) <= |s| && Original(SpanPieces(s, spans)) == s[..Last(spans)]
    ensures Masked(SpanPieces(s, spans)) == |spans|
  {
    if spans != [] {
      var before, m := spans[..|spans| - 1], spans[|spans| - 1];
      assert before != [] ==> before[|before| - 1] == spans[|spans| - 2];
      SpanPiecesCover(s, before);
      var gap, secret := Keep(s[Last(before)..m.start]), Hidden(s[m.start..m.end], Mask(m.kind));
      TwoPieces(gap, secret);
      OnePiece(gap);
      OnePiece(secret);
      OriginalConcat(SpanPieces(s, before), [gap, secret]);
      MaskedConcat(SpanPieces(s, before), [gap, secret]);
      PrefixGrows(s, Last(before), m.start, m.end);
    }
  }

  lemma {:induction false} SpanPieceCount(s: string, spans: seq<Span>)
    requires SortedDisjoint(spans, s)
    ensures |SpanPieces(s, spans)| == 2 * |spans|
  {
    if spans != [] {
      assert forall i | 0 <= i < |spans| - 1 :: spans[..|spans| - 1][i] == spans[i];
      SpanPieceCount(s, spans[..|spans| - 1]);
    }
  }

  /** The pieces of span i, and where they stand. */
  ghost predicate SpanStands(pieces: seq<Piece>, i: nat, s: string, m: Span)
    requires 2 * i + 1 < |pieces| && m.start <= m.end <= |s|
  {
    && pieces[2 * i].Keep?
    && pieces[2 * i + 1] == Hidden(s[m.start..m.end], "[REDACTED:" + m.kind + "]")
    && Original(pieces[..2 * i + 1]) == s[..m.start]
  }

  lemma {:induction false} SpanInPlace(s: string, spans: seq<Span>, i: nat)
    requires SortedDisjoint(spans, s) && i < |spans|
    ensures |SpanPieces(s, spans)| == 2 * |spans| && SpanStands(SpanPieces(s, spans), i, s, spans[i])
  {
    var n := |spans| - 1;
    if i < n {
      assert forall j | 0 <= j < n :: spans[..n][j] == spans[j];
      SpanInPlace(s, spans[..n], i);
      EarlierInPlace(s, spans, i);
    } else {
      LastInPlace(s, spans);
    }
  }

  lemma EarlierInPlace(s: string, spans: seq<Span>, i: nat)
    requires SortedDisjoint(spans, s) && i < |spans| - 1
    requires var before := spans[..|spans| - 1];
             SortedDisjoint(before, s) && |SpanPieces(s, before)| == 2 * |before|
             && SpanStands(SpanPieces(s, before), i, s, before[i])
    ensures |SpanPieces(s, spans)| == 2 * |spans| && SpanStands(SpanPieces(s, spans), i, s, spans[i])
  {
    SpanPieceCount(s, spans);
    StandsLonger(SpanPieces(s, spans[..|spans| - 1]), SpanPieces(s, spans), i, s, spans[i]);
  }

  lemma LastInPlace(s: string, spans: seq<Span>)
    requires SortedDisjoint(spans, s) && spans != []
    ensures var n := |spans| - 1;
            |SpanPieces(s, spans)| == 2 * |spans| && SpanStands(SpanPieces(s, spans), n, s, spans[n])
  {
    var n := |spans| - 1;
    assert forall j | 0 <= j < n :: spans[..n][j] == spans[j];
    SpanPieceCount(s, spans);
    SpanPieceCount(s, spans[..n]);
    SpanPiecesCover(s, spans[..n]);
    LastStands(SpanPieces(s, spans[..n]), n, s, Last(spans[..n]), spans[n]);
  }

  lemma StandsLonger(pieces: seq<Piece>, longer: seq<Piece>, i: nat, s: string, m: Span)
    requires pieces <= longer && 2 * i + 1 < |pieces| && m.start <= m.end <= |s| && SpanStands(pieces, i, s, m)
    ensures SpanStands(longer, i, s, m)
  {
    assert longer[..2 * i + 1] == pieces[..2 * i + 1];
  }

  lemma LastStands(pieces: seq<Piece>, n: nat, s: string, last: nat, m: Span)
    requires |pieces| == 2 * n && last <= m.start <= m.end <= |s| && Original(pieces) == s[..last]
    ensures var gap, secret := Keep(s[last..m.start]), Hidden(s[m.start..m.end], Mask(m.kind));
            SpanStands(pieces + [gap, secret], n, s, m)
  {
    var gap, secret := Keep(s[last..m.start]), Hidden(s[m.start..m.end], Mask(m.kind));
    assert (pieces + [gap, secret])[..2 * n + 1] == pieces + [gap];
    OriginalConcat(pieces, [gap]);
    OnePiece(gap);
    assert s[..m.start] == s[..last] + s[last..m.start];
  }

  // ---------------------------------------------------------------- the redactor's three passes

  const HOME_MASK := "$HOME"

  /** The detectors and what newRecordRedactor derives from home and user name. */
  datatype Rules = Rules(detect: string -> seq<Span>, home: string, user: string)
  {
    ghost predicate Valid() {
      forall s :: SortedDisjoint(detect(s), s)
    }

    function HomeNeedle(): Needle { Needle(home, false, HOME_MASK) }

    function UserNeedle(): Needle { Needle(user, true, USER_MASK) }

    function Secrets(s: string): seq<Piece>
      requires SortedDisjoint(detect(s), s)
    {
      SpanPiecesCover(s, detect(s));
      SpanPieces(s, detect(s)) + [Keep(s[Last(detect(s))..])]
    }

    function HomePass(t: string): seq<Piece> {
      if home == "" then [Keep(t)] else Cut(t, 0, HomeNeedle())
    }

    function UserPass(t: string): seq<Piece> {
      if user == "" then [Keep(t)] else Cut(t, 0, UserNeedle())
    }

    function Homes(s: string): seq<Piece>
      requires SortedDisjoint(detect(s), s)
    {
      HomePass(Shown(Secrets(s)))
    }

    function Users(s: string): seq<Piece>
      requires SortedDisjoint(detect(s), s)
    {
      UserPass(Shown(Homes(s)))
    }

    function Clean(s: string): string
      requires SortedDisjoint(detect(s), s)
    {
      Shown(Users(s))
    }

    /** The first pass hides span i, where it stands, behind its own mask, and
        keeps what lies before it. */
    ghost predicate HidesSpan(s: string, i: nat)
      requires SortedDisjoint(detect(s), s) && i < |detect(s)| && |Secrets(s)| == 2 * |detect(s)| + 1
    {
      SpanStands(Secrets(s), i, s, detect(s)[i])
    }

    /** Each pass only swaps its hits for masks: everything else is shown, in order,
        and the hits are exactly the detected spans, the occurrences of the home
        path, and those of the user name as a word. */
    lemma OnlyHitsChange(s: string)
      requires Valid()
      ensures Original(Secrets(s)) == s && |Secrets(s)| == 2 * |detect(s)| + 1 && Secrets(s)[2 * |detect(s)|].Keep?
      ensures forall i: nat | i < |detect(s)| :: HidesSpan(s, i)
      ensures if home == "" then Homes(s) == [Keep(Shown(Secrets(s)))]
              else OnlyHits(Homes(s), Shown(Secrets(s)), HomeNeedle())
      ensures if user == "" then Users(s) == [Keep(Shown(Homes(s)))]
              else OnlyHits(Users(s), Shown(Homes(s)), UserNeedle())
    {
      SecretsCover(s);
      forall i: nat | i < |detect(s)| ensures HidesSpan(s, i) {
        SpanInPlace(s, detect(s), i);
        StandsLonger(SpanPieces(s, detect(s)), Secrets(s), i, s, detect(s)[i]);
      }
      if home != "" {
        CutOnlyHits(Shown(Secrets(s)), HomeNeedle());
      }
      if user != "" {
        CutOnlyHits(Shown(Homes(s)), UserNeedle());
      }
    }

    lemma SecretsCover(s: string)
      requires Valid()
      ensures Original(Secrets(s)) == s && |Secrets(s)| == 2 * |detect(s)| + 1
    {
      SpanPiecesCover(s, detect(s));
      SpanPieceCount(s, detect(s));
      var last := Keep(s[Last(detect(s))..]);
      OnePiece(last);
      OriginalConcat(SpanPieces(s, detect(s)), [last]);
      assert s == s[..Last(detect(s))] + s[Last(detect(s))..];
    }

    /** An absolute home path that runs into none of the masks in use. */
    ghost predicate HomeSafe() {
      && home != "" && home[0] == '/' && !Overlaps(home, HOME_MASK)
      && (user != "" ==> !Overlaps(home, USER_MASK))
    }

    /** What the two passes over fixed texts show. */
    lemma PassesReplace(t: string)
      ensures Shown(HomePass(t)) == if home == "" then t else Replaced(t, 0, HomeNeedle())
      ensures Shown(UserPass(t)) == if user == "" then t else Replaced(t, 0, UserNeedle())
    {
      OnePiece(Keep(t));
      if home != "" {
        CountedAreMasked(t, 0, HomeNeedle());
      }
      if user != "" {
        CountedAreMasked(t, 0, UserNeedle());
      }
    }

    lemma GoneFromHomes(s: string, p: nat)
      requires Valid() && HomeSafe()
      ensures !At(Shown(Homes(s)), home, p)
    {
      PassesReplace(Shown(Secrets(s)));
      PathGone(Shown(Secrets(s)), 0, HomeNeedle(), home, p);
    }

    lemma GoneFromUsers(t: string, p: nat)
      requires HomeSafe() && forall q: nat :: !At(t, home, q)
      ensures !At(Shown(UserPass(t)), home, p)
    {
      PassesReplace(t);
      if user != "" {
        PathGone(t, 0, UserNeedle(), home, p);
      }
    }

    /** The home path does not occur in a cleaned string. */
    lemma HomeGone(s: string)
      requires Valid() && HomeSafe()
      ensures !Contains(Clean(s), home)
    {
      forall p: nat {
        GoneFromHomes(s, p);
      }
      forall p: nat {
        GoneFromUsers(Shown(Homes(s)), p);
      }
    }

    /** The home pass rids every text of the home path if and only if the path
        cannot come back; of an absolute one, if and only if it does not overlap. */
    lemma HomePassIff()
      requires home != ""
      ensures (forall t :: !Contains(Shown(HomePass(t)), home)) <==> !CanComeBack(home, HOME_MASK)
      ensures home[0] == '/' ==> (CanComeBack(home, HOME_MASK) <==> Overlaps(home, HOME_MASK))
    {
      ComesBackIffItCan(HomeNeedle());
      forall t ensures Shown(HomePass(t)) == Replaced(t, 0, HomeNeedle()) {
        PassesReplace(t);
      }
      if t :| Contains(Replaced(t, 0, HomeNeedle()), home) {
        assert Contains(Shown(HomePass(t)), home);
      }
      if home[0] == '/' {
        assert '/' !in HOME_MASK;
        ComesBackIffOverlaps(home, HOME_MASK);
      }
    }

    /** For a redactor that detects nothing and masks no user name, the condition
        of HomeGone is exact. */
    lemma HomeGoneIffSafe()
      requires home != "" && home[0] == '/' && user == "" && forall s :: detect(s) == []
      ensures Valid() && ((forall s :: !Contains(Clean(s), home)) <==> HomeSafe())
    {
      forall s ensures SortedDisjoint(detect(s), s) && Clean(s) == Shown(HomePass(s)) {
        NothingDetected(this, s);
        PassesReplace(Shown(HomePass(s)));
      }
      HomePassIff();
      if s :| Contains(Shown(HomePass(s)), home) {
        assert Contains(Clean(s), home);
      }
    }

    /** For one that masks a plain name too: the home is shown of some text if and only
        if no name stands inside it, and it overlaps its own mask or can be read into
        the name's. */
    lemma HomeShownIff()
      requires home != "" && home[0] == '/' && PlainName(user) && !ReadsAsMask(user) && forall s :: detect(s) == []
      ensures Valid()
      ensures (exists s :: Contains(Clean(s), home)) <==>
                !NameInside(home, UserNeedle()) && (Overlaps(home, HOME_MASK) || CanBeReadInto(home, UserNeedle()))
    {
      forall s ensures SortedDisjoint(detect(s), s) && Clean(s) == Both(s, HomeNeedle(), UserNeedle()) {
        NothingDetected(this, s);
        PassesReplace(s);
        PassesReplace(Shown(HomePass(s)));
      }
      ShownBehindBothIff(HomeNeedle(), UserNeedle());
      if s :| Contains(Both(s, HomeNeedle(), UserNeedle()), home) {
        assert Contains(Clean(s), home);
      }
    }

    /** A name of word characters at both ends and without "$" is gone as a word
        from every cleaned string, unless it reads as the mask does. */
    lemma UserGone(s: string, p: nat)
      requires Valid() && PlainName(user) && !ReadsAsMask(user)
      ensures !Hit(Clean(s), p, UserNeedle())
    {
      var t := Shown(Homes(s));
      PassesReplace(t);
      NameBackIffReadsAsMask(UserNeedle());
      assert !NameShown(t, UserNeedle());
    }

    /** Some text shows the name as a word when the user pass is done with it. */
    ghost predicate NameSurvives(t: string) {
      exists p: nat :: Hit(Shown(UserPass(t)), p, UserNeedle())
    }

    /** And that is exact: a name that reads as the mask is shown again. */
    lemma UserPassIff()
      requires PlainName(user)
      ensures (forall t :: !NameSurvives(t)) <==> !ReadsAsMask(user)
    {
      NameBackIffReadsAsMask(UserNeedle());
      forall t ensures NameSurvives(t) <==> NameShown(t, UserNeedle()) {
        PassesReplace(t);
      }
      if t :| NameShown(t, UserNeedle()) {
        assert NameSurvives(t);
      }
    }
  }

  lemma NothingDetected(r: Rules, s: string)
    requires r.detect(s) == []
    ensures SortedDisjoint(r.detect(s), s) && Shown(r.Secrets(s)) == s
    ensures r.Clean(s) == Shown(r.UserPass(Shown(r.HomePass(s))))
  {
    OnePiece(Keep(s[0..]));
    assert [] + [Keep(s[0..])] == [Keep(s[0..])] && s[0..] == s;
  }

  /** A path without a dollar overlaps no mask. */
  lemma NoDollarNoOverlap(path: string, mask: string)
    requires '$' !in path && mask != "" && mask[0] == '$'
    ensures !Overlaps(path, mask)
  {
    forall k: nat | 0 < k < |path| ensures !Agree(path[k..], mask) {
      assert path[k..][0] == path[k];
    }
  }

  /** The conditions are needed: homes that come back, from the home mask, from the
      user mask, and for want of a leading slash; and one with a dollar that does not. */
  lemma HomesThatComeBack()
    ensures Rules(_ => [], "/$HOME", "").Clean("//$HOME") == "/$HOME"
    ensures Rules(_ => [], "/$USER", "bob").Clean("/bob") == "/$USER"
    ensures Rules(_ => [], "HOME", "").Clean("HOME") == "$HOME" && Contains("$HOME", "HOME")
    ensures Rules(_ => [], "/srv/a$b", "bob").HomeSafe()
  {
    Twice();
    Named();
    Bare();
    Harmless();
  }

  /** Two passes with at most one hit each. */
  lemma CleanedTwice(r: Rules, s: string, u: string)
    requires r.detect(s) == [] && r.home != ""
    requires Replaced(s, 0, r.HomeNeedle()) == u
    ensures r.Clean(s) == if r.user == "" then u else Replaced(u, 0, r.UserNeedle())
  {
    NothingDetected(r, s);
    r.PassesReplace(s);
    r.PassesReplace(u);
  }

  lemma Twice()
    ensures Rules(_ => [], "/$HOME", "").Clean("//$HOME") == "/$HOME"
  {
    var r, s := Rules(_ => [], "/$HOME", ""), "//$HOME";
    var n := r.HomeNeedle();
    assert s[1] == '/' && n.text[1] == '$' && s[0..6][1] == s[1];
    assert s[1..7] == n.text;
    OneHit(s, 1, n);
    assert s[..1] + (n.mask + s[7..]) == "/$HOME";
    CleanedTwice(r, s, "/$HOME");
  }

  lemma Named()
    ensures Rules(_ => [], "/$USER", "bob").Clean("/bob") == "/$USER"
  {
    var r, s := Rules(_ => [], "/$USER", "bob"), "/bob";
    NoRoom(s, 0, r.HomeNeedle());
    assert s[0..] == s;
    CleanedTwice(r, s, s);
    BobMasked(r.UserNeedle(), s);
  }

  lemma BobMasked(n: Needle, s: string)
    requires n == Needle("bob", true, USER_MASK) && s == "/bob"
    ensures Replaced(s, 0, n) == "/$USER"
  {
    assert "/" + n.text == s && s[0] == '/' && n.text[0] == 'b';
    HitAtEnd("/", n);
    AtChar(s, n.text, 0, 0);
    OneHit(s, 1, n);
    assert s[..1] + (n.mask + s[4..]) == "/$USER";
  }

  lemma Bare()
    ensures Rules(_ => [], "HOME", "").Clean("HOME") == "$HOME" && Contains("$HOME", "HOME")
  {
    var r, s := Rules(_ => [], "HOME", ""), "HOME";
    var n := r.HomeNeedle();
    assert s[0..4] == s;
    OneHit(s, 0, n);
    var out := "$HOME";
    assert s[..0] + (n.mask + s[4..]) == out;
    CleanedTwice(r, s, out);
    assert out[1..5] == "HOME" && At(out, "HOME", 1);
  }

  lemma Harmless()
    ensures Rules(_ => [], "/srv/a$b", "bob").HomeSafe()
  {
    OverlapsAtDollar("/srv/a$b", HOME_MASK);
    OverlapsAtDollar("/srv/a$b", USER_MASK);
  }

  lemma OverlapsAtDollar(path: string, mask: string)
    requires |mask| == 5 && mask[0] == '$' && mask[1] != 'b'
    requires |path| == 8 && path[6] == '$' && path[7] == 'b' && forall i | 0 <= i < 8 && i != 6 :: path[i] != '$'
    ensures !Overlaps(path, mask)
  {
    forall k: nat | 0 < k < |path| ensures !Agree(path[k..], mask) {
      assert path[k..][0] == path[k];
      if k == 6 {
        assert path[k..][1] == path[7];
      }
    }
  }

  // ---------------------------------------------------------------- a JSON document

  /** An object's members are listed in the order the map is ranged over, which
      Go leaves open; every statement below is for all orders. */
  datatype Json = Str(s: string) | Arr(items: seq<Json>) | Obj(members: seq<Member>) | Scalar(text: string)

  datatype Member = Member(key: string, value: Json)

  /** Assigning a map entry. */
  function Put(members: seq<Member>, key: string, value: Json): seq<Member> {
    if members == [] then [Member(key, value)]
    else if members[0].key == key then [Member(key, value)] + members[1..]
    else [members[0]] + Put(members[1..], key, value)
  }

  function CleanDoc(r: Rules, v: Json): Json
    requires r.Valid()
    decreases v, 0
  {
    match v
    case Str(s) => Str(r.Clean(s))
    case Arr(items) => Arr(CleanItems(r, items))
    case Obj(members) => Obj(CleanMembers(r, members))
    case Scalar(_) => v
  }

  function CleanItems(r: Rules, items: seq<Json>): (out: seq<Json>)
    requires r.Valid()
    ensures |out| == |items|
    decreases items, 1
  {
    if items == [] then [] else CleanItems(r, items[..|items| - 1]) + [CleanDoc(r, items[|items| - 1])]
  }

  function CleanMembers(r: Rules, members: seq<Member>): seq<Member>
    requires r.Valid()
    decreases members, 1
  {
    if members == [] then []
    else
      var m := members[|members| - 1];
      Put(CleanMembers(r, members[..|members| - 1]), r.Clean(m.key), CleanDoc(r, m.value))
  }

  /** No string and no key of the document holds the path. */
  ghost predicate PathFree(v: Json, path: string) {
    match v
    case Str(s) => !Contains(s, path)
    case Arr(items) => forall i | 0 <= i < |items| :: PathFree(items[i], path)
    case Obj(members) => forall i | 0 <= i < |members| :: MemberFree(members[i], path)
    case Scalar(_) => true
  }

  ghost predicate MemberFree(m: Member, path: string) {
    !Contains(m.key, path) && PathFree(m.value, path)
  }

  lemma {:induction false} PutFree(members: seq<Member>, key: string, value: Json, path: string)
    requires (forall i | 0 <= i < |members| :: MemberFree(members[i], path)) && MemberFree(Member(key, value), path)
    ensures forall i | 0 <= i < |Put(members, key, value)| :: MemberFree(Put(members, key, value)[i], path)
  {
    if members != [] && members[0].key != key {
      PutFree(members[1..], key, value, path);
    }
  }

  /** After the walk, the home path occurs in no string and no key. */
  lemma {:induction false} HomeGoneFromDoc(r: Rules, v: Json)
    requires r.Valid() && r.HomeSafe()
    ensures PathFree(CleanDoc(r, v), r.home)
    decreases v, 0
  {
    match v
    case Str(s) => r.HomeGone(s);
    case Arr(items) => HomeGoneFromItems(r, items);
    case Obj(members) => HomeGoneFromMembers(r, members);
    case Scalar(_) =>
  }

  lemma {:induction false} HomeGoneFromItems(r: Rules, items: seq<Json>)
    requires r.Valid() && r.HomeSafe()
    ensures forall i | 0 <= i < |items| :: PathFree(CleanItems(r, items)[i], r.home)
    decreases items, 1
  {
    if items != [] {
      HomeGoneFromItems(r, items[..|items| - 1]);
      HomeGoneFromDoc(r, items[|items| - 1]);
    }
  }

  lemma {:induction false} HomeGoneFromMembers(r: Rules, members: seq<Member>)
    requires r.Valid() && r.HomeSafe()
    ensures forall i | 0 <= i < |CleanMembers(r, members)| :: MemberFree(CleanMembers(r, members)[i], r.home)
    decreases members, 1
  {
    if members != [] {
      var m := members[|members| - 1];
      HomeGoneFromMembers(r, members[..|members| - 1]);
      HomeGoneFromDoc(r, m.value);
      r.HomeGone(m.key);
      PutFree(CleanMembers(r, members[..|members| - 1]), r.Clean(m.key), CleanDoc(r, m.value), r.home);
    }
  }

  lemma {:induction false} ItemsPointwise(r: Rules, items: seq<Json>, i: nat)
    requires r.Valid() && i < |items|
    ensures CleanItems(r, items)[i] == CleanDoc(r, items[i])
  {
    if i < |items| - 1 {
      ItemsPointwise(r, items[..|items| - 1], i);
    }
  }

  // ---------------------------------------------------------------- keys that redact alike

  predicate HasKey(members: seq<Member>, key: string) {
    members != [] && (members[0].key == key || HasKey(members[1..], key))
  }

  predicate Distinct(members: seq<Member>) {
    members == [] || (!HasKey(members[1..], members[0].key) && Distinct(members[1..]))
  }

  lemma {:induction false} PutKeys(members: seq<Member>, key: string, value: Json, k: string)
    requires Distinct(members)
    ensures var out := Put(members, key, value);
            && (HasKey(out, k) <==> HasKey(members, k) || k == key)
            && |out| == |members| + (if HasKey(members, key) then 0 else 1)
  {
    if members != [] && members[0].key != key {
      PutKeys(members[1..], key, value, k);
    }
  }

  lemma {:induction false} PutDistinct(members: seq<Member>, key: string, value: Json)
    requires Distinct(members)
    ensures Distinct(Put(members, key, value))
  {
    if members != [] && members[0].key != key {
      PutDistinct(members[1..], key, value);
      PutKeys(members[1..], key, value, members[0].key);
    }
  }

  /** Some key of the object redacts to k. */
  predicate Reaches(r: Rules, members: seq<Member>, k: string)
    requires r.Valid()
  {
    members != [] && (r.Clean(members[|members| - 1].key) == k || Reaches(r, members[..|members| - 1], k))
  }

  /** Two keys of the object redact to the same text. */
  predicate Collide(r: Rules, members: seq<Member>)
    requires r.Valid()
  {
    && members != []
    && (Reaches(r, members[..|members| - 1], r.Clean(members[|members| - 1].key))
        || Collide(r, members[..|members| - 1]))
  }

  lemma {:induction false} CleanedKeys(r: Rules, members: seq<Member>, k: string)
    requires r.Valid()
    ensures Distinct(CleanMembers(r, members))
    ensures HasKey(CleanMembers(r, members), k) <==> Reaches(r, members, k)
  {
    if members != [] {
      var m := members[|members| - 1];
      var before := CleanMembers(r, members[..|members| - 1]);
      CleanedKeys(r, members[..|members| - 1], k);
      PutKeys(before, r.Clean(m.key), CleanDoc(r, m.value), k);
      PutDistinct(before, r.Clean(m.key), CleanDoc(r, m.value));
    }
  }

  /** An object keeps its keys, redacted and distinct, and loses an entry exactly
      when two of its keys redact alike. */
  lemma {:induction false} EntriesKeptIffNoCollision(r: Rules, members: seq<Member>)
    requires r.Valid()
    ensures var out := CleanMembers(r, members);
            && Distinct(out) && (forall k :: HasKey(out, k) <==> Reaches(r, members, k))
            && |out| <= |members| && (|out| == |members| <==> !Collide(r, members))
  {
    forall k ensures HasKey(CleanMembers(r, members), k) <==> Reaches(r, members, k) {
      CleanedKeys(r, members, k);
    }
    CleanedKeys(r, members, "");
    if members != [] {
      var m := members[|members| - 1];
      EntriesKeptIffNoCollision(r, members[..|members| - 1]);
      PutKeys(CleanMembers(r, members[..|members| - 1]), r.Clean(m.key), CleanDoc(r, m.value), "");
    }
  }

  /** Two keys that are wholly secrets of one kind become one entry. */
  lemma SecretKeysCollide(a: Json, b: Json)
    ensures var r := Rules(s => [Span(0, |s|, "token")], "", "");
            var members := [Member("k1", a), Member("k2", b)];
            r.Valid() && Collide(r, members) && |CleanMembers(r, members)| == 1
  {
    var r := Rules(s => [Span(0, |s|, "token")], "", "");
    var members := [Member("k1", a), Member("k2", b)];
    WhollySecret(r, "k1");
    WhollySecret(r, "k2");
    assert members[..1] == [Member("k1", a)] && members[..1][..0] == [];
    EntriesKeptIffNoCollision(r, members);
    CleanedKeys(r, members, Mask("token"));
  }

  lemma WhollySecret(r: Rules, s: string)
    requires r == Rules(s => [Span(0, |s|, "token")], "", "")
    ensures r.Valid() && r.Clean(s) == Mask("token")
  {
    SecretText(r, s);
    r.PassesReplace(Mask("token"));
  }

  lemma SecretText(r: Rules, s: string)
    requires r.detect(s) == [Span(0, |s|, "token")]
    ensures SortedDisjoint(r.detect(s), s) && Shown(r.Secrets(s)) == Mask("token")
  {
    var spans, gap, secret := r.detect(s), Keep(s[0..0]), Hidden(s[0..|s|], Mask("token"));
    assert spans[..0] == [] && SpanPieces(s, spans) == [] + [gap, secret];
    ShownTwo([], s[0..0], s[0..|s|], Mask("token"));
    OnePiece(Keep(s[|s|..]));
    ShownConcat(SpanPieces(s, spans), [Keep(s[|s|..])]);
  }

  /** Entry i of the result is entry i of the object, key and value cleaned. */
  predicate EntryCleaned(r: Rules, members: seq<Member>, out: seq<Member>, i: nat)
    requires r.Valid() && i < |members| && i < |out|
  {
    out[i] == Member(r.Clean(members[i].key), CleanDoc(r, members[i].value))
  }

  lemma {:induction false} PutNew(members: seq<Member>, key: string, value: Json)
    requires !HasKey(members, key)
    ensures Put(members, key, value) == members + [Member(key, value)]
  {
    if members != [] {
      PutNew(members[1..], key, value);
    }
  }

  lemma {:induction false} MembersPointwise(r: Rules, members: seq<Member>)
    requires r.Valid() && !Collide(r, members)
    ensures var out := CleanMembers(r, members);
            |out| == |members| && forall i: nat | i < |members| :: EntryCleaned(r, members, out, i)
  {
    if members != [] {
      var n := |members| - 1;
      var before, m := members[..n], members[n];
      MembersPointwise(r, before);
      CleanedKeys(r, before, r.Clean(m.key));
      PutNew(CleanMembers(r, before), r.Clean(m.key), CleanDoc(r, m.value));
      var out := CleanMembers(r, members);
      forall i: nat | i <= n ensures EntryCleaned(r, members, out, i) {
        if i < n {
          assert EntryCleaned(r, before, CleanMembers(r, before), i);
        }
      }
    }
  }

  /** Arrays keep their length and order, scalars and strings their place, and so
      do the entries of an object of which no two keys redact alike. */
  lemma ShapeKept(r: Rules, v: Json)
    requires r.Valid()
    ensures v.Scalar? ==> CleanDoc(r, v) == v
    ensures v.Str? ==> CleanDoc(r, v) == Str(r.Clean(v.s))
    ensures v.Arr? ==> var w := CleanDoc(r, v);
              w.Arr? && |w.items| == |v.items| && forall i | 0 <= i < |v.items| :: w.items[i] == CleanDoc(r, v.items[i])
    ensures v.Obj? ==> var w := CleanDoc(r, v);
              w.Obj? && (!Collide(r, v.members) ==>
                           && |w.members| == |v.members|
                           && forall i: nat | i < |w.members| :: EntryCleaned(r, v.members, w.members, i))
  {
    if v.Obj? && !Collide(r, v.members) {
      MembersPointwise(r, v.members);
    }
    if v.Arr? {
      forall i | 0 <= i < |v.items| ensures CleanItems(r, v.items)[i] == CleanDoc(r, v.items[i]) {
        ItemsPointwise(r, v.items, i);
      }
    }
  }

  // ---------------------------------------------------------------- counts

  datatype Tally = Tally(hits: multiset<string>, homes: nat, users: nat)

  function Plus(a: Tally, b: Tally): Tally {
    Tally(a.hits + b.hits, a.homes + b.homes, a.users + b.users)
  }

  const NOTHING := Tally(multiset{}, 0, 0)

  function Kinds(spans: seq<Span>): multiset<string> {
    if spans == [] then multiset{} else Kinds(spans[..|spans| - 1]) + multiset{spans[|spans| - 1].kind}
  }

  function OfKind(spans: seq<Span>, kind: string): set<int> {
    set i | 0 <= i < |spans| && spans[i].kind == kind
  }

  /** How many spans are of a kind. */
  lemma {:induction false} KindsCount(spans: seq<Span>, kind: string)
    ensures Kinds(spans)[kind] == |OfKind(spans, kind)|
  {
    if spans != [] {
      var n := |spans| - 1;
      var before := spans[..n];
      KindsCount(before, kind);
      assert OfKind(spans, kind) == OfKind(before, kind) + if spans[n].kind == kind then {n} else {};
      assert n !in OfKind(before, kind);
    }
  }

  /** With the cut home every longer spelling of it is gone. */
  lemma GoneWithPrefix(r: Rules, s: string)
    requires r.Valid()
    ensures r.HomeSafe() ==> forall given | r.home <= given :: !Contains(r.Clean(s), given)
  {
    if r.HomeSafe() {
      r.HomeGone(s);
      var out := r.Clean(s);
      forall given, i | r.home <= given && At(out, given, i) ensures false {
        assert out[i..i + |r.home|] == out[i..i + |given|][..|r.home|] == r.home;
        assert At(out, r.home, i);
      }
    }
  }

  /** What the redaction of one string promises. */
  lemma StrSays(r: Rules, s: string)
    requires r.Valid()
    ensures r.HomeSafe() ==> forall given | r.home <= given :: !Contains(r.Clean(s), given)
    ensures forall kind :: StrTally(r, s).hits[kind] == |OfKind(r.detect(s), kind)|
    ensures StrTally(r, s).homes == Masked(r.Homes(s)) && StrTally(r, s).users == Masked(r.Users(s))
  {
    GoneWithPrefix(r, s);
    forall kind {
      KindsCount(r.detect(s), kind);
    }
  }

  /** The replacements the three passes make in one string. */
  function StrTally(r: Rules, s: string): Tally
    requires r.Valid()
  {
    Tally(Kinds(r.detect(s)), Masked(r.Homes(s)), Masked(r.Users(s)))
  }

  /** The replacements in a whole document, keys included. */
  function DocTally(r: Rules, v: Json): Tally
    requires r.Valid()
    decreases v, 0
  {
    match v
    case Str(s) => StrTally(r, s)
    case Arr(items) => ItemsTally(r, items)
    case Obj(members) => MembersTally(r, members)
    case Scalar(_) => NOTHING
  }

  function ItemsTally(r: Rules, items: seq<Json>): Tally
    requires r.Valid()
    decreases items, 1
  {
    if items == [] then NOTHING else Plus(ItemsTally(r, items[..|items| - 1]), DocTally(r, items[|items| - 1]))
  }

  function MembersTally(r: Rules, members: seq<Member>): Tally
    requires r.Valid()
    decreases members, 1
  {
    if members == [] then NOTHING
    else
      var m := members[|members| - 1];
      Plus(MembersTally(r, members[..|members| - 1]), Plus(StrTally(r, m.key), DocTally(r, m.value)))
  }

  /** Every string and every key of a document, in order. */
  function Strings(v: Json): seq<string>
    decreases v, 0
  {
    match v
    case Str(s) => [s]
    case Arr(items) => ItemStrings(items)
    case Obj(members) => MemberStrings(members)
    case Scalar(_) => []
  }

  function ItemStrings(items: seq<Json>): seq<string>
    decreases items, 1
  {
    if items == [] then [] else ItemStrings(items[..|items| - 1]) + Strings(items[|items| - 1])
  }

  function MemberStrings(members: seq<Member>): seq<string>
    decreases members, 1
  {
    if members == [] then []
    else
      var m := members[|members| - 1];
      MemberStrings(members[..|members| - 1]) + ([m.key] + Strings(m.value))
  }

  function SumOver(f: string -> Tally, strings: seq<string>): Tally {
    if strings == [] then NOTHING else Plus(SumOver(f, strings[..|strings| - 1]), f(strings[|strings| - 1]))
  }

  lemma PlusAssoc(a: Tally, b: Tally, c: Tally)
    ensures Plus(Plus(a, b), c) == Plus(a, Plus(b, c))
  {}

  lemma PlusNothing(a: Tally)
    ensures Plus(a, NOTHING) == a && Plus(NOTHING, a) == a
  {}

  lemma SumNext(f: string -> Tally, a: seq<string>, x: string)
    ensures SumOver(f, a + [x]) == Plus(SumOver(f, a), f(x))
  {
    assert (a + [x])[..|a|] == a;
  }

  lemma LastMoves(a: seq<string>, b: seq<string>)
    requires b != []
    ensures var n := |b| - 1; a + b == (a + b[..n]) + [b[n]] && b == b[..n] + [b[n]]
  {}

  lemma {:induction false} SumOverConcat(f: string -> Tally, a: seq<string>, b: seq<string>)
    ensures SumOver(f, a + b) == Plus(SumOver(f, a), SumOver(f, b))
    decreases |b|
  {
    if b == [] {
      assert a + b == a;
      PlusNothing(SumOver(f, a));
    } else {
      var last, rest := b[|b| - 1], b[..|b| - 1];
      LastMoves(a, b);
      SumOverConcat(f, a, rest);
      var x, y, z := SumOver(f, a), SumOver(f, rest), f(last);
      calc {
        SumOver(f, a + b);
        { SumNext(f, a + rest, last); }
        Plus(SumOver(f, a + rest), z);
        Plus(Plus(x, y), z);
        { PlusAssoc(x, y, z); }
        Plus(x, Plus(y, z));
        { SumNext(f, rest, last); }
        Plus(x, SumOver(f, b));
      }
    }
  }

  lemma SumOverOne(f: string -> Tally, s: string)
    ensures SumOver(f, [s]) == f(s)
  {
    PlusNothing(f(s));
    assert [s][..0] == [];
  }

  /** What is replaced in one string. */
  function TallyOf(r: Rules): string -> Tally
    requires r.Valid()
  {
    s => StrTally(r, s)
  }

  /** A document's replacements are those in its strings and keys, and no others. */
  lemma {:induction false} DocTallyIsSum(r: Rules, v: Json)
    requires r.Valid()
    ensures DocTally(r, v) == SumOver(TallyOf(r), Strings(v))
    decreases v, 0
  {
    match v
    case Str(s) => SumOverOne(TallyOf(r), s);
    case Arr(items) => ItemsTallyIsSum(r, items);
    case Obj(members) => MembersTallyIsSum(r, members);
    case Scalar(_) =>
  }

  lemma {:induction false} ItemsTallyIsSum(r: Rules, items: seq<Json>)
    requires r.Valid()
    ensures ItemsTally(r, items) == SumOver(TallyOf(r), ItemStrings(items))
    decreases items, 1
  {
    if items != [] {
      var n := |items| - 1;
      ItemsTallyIsSum(r, items[..n]);
      DocTallyIsSum(r, items[n]);
      SumOverConcat(TallyOf(r), ItemStrings(items[..n]), Strings(items[n]));
    }
  }

  lemma {:induction false} MembersTallyIsSum(r: Rules, members: seq<Member>)
    requires r.Valid()
    ensures MembersTally(r, members) == SumOver(TallyOf(r), MemberStrings(members))
    decreases members, 1
  {
    if members != [] {
      var n := |members| - 1;
      var m := members[n];
      MembersTallyIsSum(r, members[..n]);
      DocTallyIsSum(r, m.value);
      SumOverOne(TallyOf(r), m.key);
      SumOverConcat(TallyOf(r), [m.key], Strings(m.value));
      SumOverConcat(TallyOf(r), MemberStrings(members[..n]), [m.key] + Strings(m.value));
    }
  }

  /** The home path's length, cut at trailing slashes; a bare "/" is no home. */
  function HomeOf(home: string): string {
    var n := WithoutSlashes(home);
    if n > 1 then home[..n] else ""
  }

  function WithoutSlashes(s: string): (n: nat)
    ensures n <= |s| && (n > 0 ==> s[n - 1] != '/') && forall i | n <= i < |s| :: s[i] == '/'
  {
    if s != "" && s[|s| - 1] == '/' then WithoutSlashes(s[..|s| - 1]) else |s|
  }

  function CountIn(hits: map<string, nat>, kind: string): nat {
    if kind in hits then hits[kind] else 0
  }

  lemma ItemsStep(r: Rules, items: seq<Json>, i: nat)
    requires r.Valid() && i < |items|
    ensures CleanItems(r, items[..i + 1]) == CleanItems(r, items[..i]) + [CleanDoc(r, items[i])]
    ensures ItemsTally(r, items[..i + 1]) == Plus(ItemsTally(r, items[..i]), DocTally(r, items[i]))
  {
    var upTo := items[..i + 1];
    assert upTo[..i] == items[..i] && upTo[i] == items[i];
  }

  lemma MembersStep(r: Rules, members: seq<Member>, i: nat)
    requires r.Valid() && i < |members|
    ensures CleanMembers(r, members[..i + 1])
         == Put(CleanMembers(r, members[..i]), r.Clean(members[i].key), CleanDoc(r, members[i].value))
    ensures MembersTally(r, members[..i + 1])
         == Plus(MembersTally(r, members[..i]), Plus(StrTally(r, members[i].key), DocTally(r, members[i].value)))
  {
    var upTo := members[..i + 1];
    assert upTo[..i] == members[..i] && upTo[i] == members[i];
  }

  /** One more of a kind, counted. */
  lemma OneMore(was: map<string, nat>, now: map<string, nat>, kinds: multiset<string>, kind: string)
    requires Counted(was, now, kinds)
    ensures Counted(was, now[kind := CountIn(now, kind) + 1], kinds + multiset{kind})
  {}

  /** Between the two, each kind was counted as often as it occurs. */
  ghost predicate Counted(was: map<string, nat>, now: map<string, nat>, kinds: multiset<string>) {
    forall k :: CountIn(now, k) == CountIn(was, k) + kinds[k]
  }

  class Redactor {
    const rules: Rules
    var hits: map<string, nat>
    var homeN: nat
    var userN: nat

    function Count(kind: string): nat
      reads this
    {
      CountIn(hits, kind)
    }

    /** Since `was`, the counters have grown by exactly t. */
    ghost predicate Grown(was: map<string, nat>, homes: nat, users: nat, t: Tally)
      reads this
    {
      && Counted(was, hits, t.hits)
      && homeN == homes + t.homes && userN == users + t.users
    }

    constructor (detect: string -> seq<Span>, home: string, user: string)
      requires forall s :: SortedDisjoint(detect(s), s)
      ensures rules.Valid() && rules.detect == detect && hits == map[] && homeN == userN == 0
      ensures rules.home <= home
      ensures rules.home != "" ==>
                && |rules.home| >= 2 && rules.home[|rules.home| - 1] != '/'
                && forall i | |rules.home| <= i < |home| :: home[i] == '/'
      ensures rules.home == "" <==> forall i | 1 <= i < |home| :: home[i] == '/'
      ensures home != "" && home[0] == '/' && '$' !in home && (exists i | 0 <= i < |home| :: home[i] != '/')
              ==> rules.HomeSafe()
      ensures rules.user == if |user| >= 3 then user else ""
    {
      rules := Rules(detect, HomeOf(home), if |user| >= 3 then user else "");
      hits, homeN, userN := map[], 0, 0;
      if '$' !in home {
        NoDollarNoOverlap(HomeOf(home), HOME_MASK);
        NoDollarNoOverlap(HomeOf(home), USER_MASK);
      }
    }

    /** The three passes over one string. */
    method Str(s: string) returns (out: string)
      requires rules.Valid()
      modifies this
      ensures out == rules.Clean(s)
      ensures rules.HomeSafe() ==> forall given | rules.home <= given :: !Contains(out, given)
      ensures Grown(old(hits), old(homeN), old(userN), StrTally(rules, s))
      ensures var spans := rules.detect(s);
              forall kind :: Count(kind) == CountIn(old(hits), kind) + |OfKind(spans, kind)|
      ensures homeN == old(homeN) + Masked(rules.Homes(s)) && userN == old(userN) + Masked(rules.Users(s))
    {
      out := HideSecrets(s);
      if rules.home != "" {
        CountedAreMasked(out, 0, rules.HomeNeedle());
        var n := CountHits(out, 0, rules.HomeNeedle());
        if n > 0 {
          out := Replaced(out, 0, rules.HomeNeedle());
          homeN := homeN + n;
        }
      } else {
        OnePiece(Keep(out));
      }
      assert out == Shown(rules.Homes(s));
      StrSays(rules, s);
      if rules.user != "" {
        CountedAreMasked(out, 0, rules.UserNeedle());
        var n := CountHits(out, 0, rules.UserNeedle());
        if n > 0 {
          out := Replaced(out, 0, rules.UserNeedle());
          userN := userN + n;
        }
      } else {
        OnePiece(Keep(out));
      }
    }

    method HideSecrets(s: string) returns (out: string)
      requires rules.Valid()
      modifies this`hits
      ensures out == Shown(rules.Secrets(s))
      ensures Grown(old(hits), homeN, userN, Tally(Kinds(rules.detect(s)), 0, 0))
    {
      var spans := rules.detect(s);
      out := HideSpans(s, spans);
      SecretsShown(rules, s);
      out := out + s[Last(spans)..];
    }

    /** The text up to the end of the last span. */
    method HideSpans(s: string, spans: seq<Span>) returns (b: string)
      requires SortedDisjoint(spans, s)
      modifies this`hits
      ensures b == Shown(SpanPieces(s, spans)) && Counted(old(hits), hits, Kinds(spans))
    {
      b := "";
      for n := 0 to |spans|
        invariant SortedDisjoint(spans[..n], s)
        invariant b == Shown(SpanPieces(s, spans[..n]))
        invariant Counted(old(hits), hits, Kinds(spans[..n]))
      {
        b := HideSpan(old(hits), s, spans, n, b);
      }
      assert spans[..|spans|] == spans;
    }

    /** One more span: what lies before it, and its mask. */
    method HideSpan(ghost was: map<string, nat>, s: string, spans: seq<Span>, n: nat, shown: string)
      returns (b: string)
      requires SortedDisjoint(spans, s) && n < |spans|
      requires SortedDisjoint(spans[..n], s) && shown == Shown(SpanPieces(s, spans[..n]))
      requires Counted(was, hits, Kinds(spans[..n]))
      modifies this`hits
      ensures SortedDisjoint(spans[..n + 1], s) && b == Shown(SpanPieces(s, spans[..n + 1]))
      ensures Counted(was, hits, Kinds(spans[..n + 1]))
    {
      SpanStep(s, spans, n);
      OneMore(was, hits, Kinds(spans[..n]), spans[n].kind);
      var last := Last(spans[..n]);
      b := shown + s[last..spans[n].start];
      b := b + Mask(spans[n].kind);
      Bump(spans[n].kind);
    }

    method Bump(kind: string)
      modifies this`hits
      ensures hits == old(hits)[kind := CountIn(old(hits), kind) + 1]
    {
      hits := hits[kind := Count(kind) + 1];
    }

    /** walk: rewrites a document and counts every replacement it makes. */
    method Walk(v: Json) returns (out: Json)
      requires rules.Valid()
      modifies this
      ensures out == CleanDoc(rules, v)
      ensures Grown(old(hits), old(homeN), old(userN), DocTally(rules, v))
      decreases v, 0
    {
      match v {
        case Str(s) =>
          var text := Str(s);
          out := Json.Str(text);
        case Arr(items) =>
          var done := WalkItems(items);
          out := Arr(done);
        case Obj(members) =>
          var done := WalkMembers(members);
          out := Obj(done);
        case Scalar(_) => out := v;
      }
    }

    method WalkItems(items: seq<Json>) returns (out: seq<Json>)
      requires rules.Valid()
      modifies this
      ensures out == CleanItems(rules, items)
      ensures Grown(old(hits), old(homeN), old(userN), ItemsTally(rules, items))
      decreases items, 1
    {
      out := items;
      for i := 0 to |items|
        invariant |out| == |items| && out[..i] == CleanItems(rules, items[..i]) && out[i..] == items[i..]
        invariant Grown(old(hits), old(homeN), old(userN), ItemsTally(rules, items[..i]))
      {
        assert out[i] == out[i..][0] == items[i];
        ItemsStep(rules, items, i);
        var item := Walk(out[i]);
        out := out[i := item];
        assert out[..i + 1] == out[..i] + [item] && out[i + 1..] == items[i..][1..];
      }
      assert items[..|items|] == items && out[..|out|] == out;
    }

    method WalkMembers(members: seq<Member>) returns (out: seq<Member>)
      requires rules.Valid()
      modifies this
      ensures out == CleanMembers(rules, members)
      ensures Grown(old(hits), old(homeN), old(userN), MembersTally(rules, members))
      decreases members, 1
    {
      out := [];
      for i := 0 to |members|
        invariant out == CleanMembers(rules, members[..i])
        invariant Grown(old(hits), old(homeN), old(userN), MembersTally(rules, members[..i]))
      {
        MembersStep(rules, members, i);
        ghost var was, homes, users := hits, homeN, userN;
        var key, value := WalkMember(members[i]);
        GrownTwice(old(hits), old(homeN), old(userN), MembersTally(rules, members[..i]), was, homes, users,
                   Plus(StrTally(rules, members[i].key), DocTally(rules, members[i].value)));
        out := Put(out, key, value);
      }
      assert members[..|members|] == members;
    }

    lemma GrownTwice(was0: map<string, nat>, homes0: nat, users0: nat, t0: Tally,
                     was: map<string, nat>, homes: nat, users: nat, t: Tally)
      requires Counted(was0, was, t0.hits)
      requires homes == homes0 + t0.homes && users == users0 + t0.users
      requires Grown(was, homes, users, t)
      ensures Grown(was0, homes0, users0, Plus(t0, t))
    {
      forall kind ensures Plus(t0, t).hits[kind] == t0.hits[kind] + t.hits[kind] {
      }
    }

    method WalkMember(m: Member) returns (key: string, value: Json)
      requires rules.Valid()
      modifies this
      ensures key == rules.Clean(m.key) && value == CleanDoc(rules, m.value)
      ensures Grown(old(hits), old(homeN), old(userN), Plus(StrTally(rules, m.key), DocTally(rules, m.value)))
      decreases m, 1
    {
      key := Str(m.key);
      value := Walk(m.value);
    }
  }

  lemma SecretsShown(r: Rules, s: string)
    requires r.Valid()
    ensures Last(r.detect(s)) <= |s|
    ensures Shown(r.Secrets(s)) == Shown(SpanPieces(s, r.detect(s))) + s[Last(r.detect(s))..]
  {
    var spans := r.detect(s);
    OnePiece(Keep(s[Last(spans)..]));
    ShownConcat(SpanPieces(s, spans), [Keep(s[Last(spans)..])]);
  }

  lemma SpanStep(s: string, spans: seq<Span>, n: nat)
    requires SortedDisjoint(spans, s) && n < |spans|
    ensures SortedDisjoint(spans[..n], s) && SortedDisjoint(spans[..n + 1], s) && Last(spans[..n]) <= spans[n].start
    ensures Last(spans[..n + 1]) == spans[n].end
    ensures Kinds(spans[..n + 1]) == Kinds(spans[..n]) + multiset{spans[n].kind}
    ensures Shown(SpanPieces(s, spans[..n + 1]))
         == Shown(SpanPieces(s, spans[..n])) + s[Last(spans[..n])..spans[n].start] + Mask(spans[n].kind)
  {
    var m := spans[n];
    assert spans[..n + 1][..n] == spans[..n];
    assert n > 0 ==> spans[..n][n - 1] == spans[n - 1];
    ShownTwo(SpanPieces(s, spans[..n]), s[Last(spans[..n])..m.start], s[m.start..m.end], Mask(m.kind));
  }

  lemma ShownTwo(pieces: seq<Piece>, gap: string, secret: string, mask: string)
    ensures Shown(pieces + [Keep(gap), Hidden(secret, mask)]) == Shown(pieces) + gap + mask
  {
    TwoPieces(Keep(gap), Hidden(secret, mask));
    ShownConcat(pieces, [Keep(gap), Hidden(secret, mask)]);
  }
}
