/** Working-tree snapshots and their difference (gitStatusSnapshot and
    changedPaths in cmd/rysh/run_result.go). */
module GitStatus {
  import opened Text

  /** One entry of `git status --porcelain -z`: two status letters, the path, and
      for a rename or a copy the path it came from. */
  datatype Entry = Entry(status: string, path: string, origin: Option<string>)
  {
    predicate Formed() {
      && |status| == 2 && path != "" && '\0' !in status && '\0' !in path
      && (origin.Some? ==> origin.value != "" && '\0' !in origin.value)
    }

    /** Renamed or copied in the index, the first of the two letters. */
    predicate InIndex() { Formed() && status[0] in {'R', 'C'} }
  }

  const NUL := ['\0']

  function PrintFields(entries: seq<Entry>): seq<string> {
    if entries == [] then []
    else
      var e := entries[0];
      [e.status + " " + e.path] + (if e.origin.Some? then [e.origin.value] else []) + PrintFields(entries[1..])
  }

  /** The -z output: every field is closed by a NUL. */
  function Print(entries: seq<Entry>): string {
    Join(PrintFields(entries) + [""], NUL)
  }

  function Note(state: map<string, string>, e: Entry): map<string, string> {
    var noted := state[e.path := e.status];
    if e.origin.Some? then noted[e.origin.value := e.status] else noted
  }

  /** What the entries say: each path with its status, the origin of a rename or
      copy with the same one, a later entry over an earlier. */
  function Describe(entries: seq<Entry>, state: map<string, string>): map<string, string>
    decreases |entries|
  {
    if entries == [] then state else Describe(entries[1..], Note(state, entries[0]))
  }

  predicate Names(e: Entry, p: string) {
    e.path == p || e.origin == Some(p)
  }

  /** No entry from the i-th on names p. */
  predicate Unnamed(entries: seq<Entry>, i: nat, p: string) {
    forall j | i <= j < |entries| :: !Names(entries[j], p)
  }

  lemma {:induction false} UnnamedStays(entries: seq<Entry>, state: map<string, string>, p: string)
    requires Unnamed(entries, 0, p)
    ensures p in Describe(entries, state) <==> p in state
    ensures p in state ==> Describe(entries, state)[p] == state[p]
    decreases |entries|
  {
    if entries != [] {
      assert !Names(entries[0], p);
      assert Unnamed(entries[1..], 0, p);
      UnnamedStays(entries[1..], Note(state, entries[0]), p);
    }
  }

  /** What is said of a path is the status of the last entry that names it, as its
      path or its origin; and of a path that none names, nothing. */
  lemma {:induction false} DescribeIsLastWord(entries: seq<Entry>, state: map<string, string>, i: nat, p: string)
    ensures Unnamed(entries, 0, p) ==> (p in Describe(entries, state) <==> p in state)
    ensures i < |entries| && Names(entries[i], p) && Unnamed(entries, i + 1, p) ==>
              p in Describe(entries, state) && Describe(entries, state)[p] == entries[i].status
    decreases |entries|
  {
    if Unnamed(entries, 0, p) {
      UnnamedStays(entries, state, p);
    } else if i < |entries| && Names(entries[i], p) && Unnamed(entries, i + 1, p) {
      var rest, noted := entries[1..], Note(state, entries[0]);
      forall j | i < j < |entries| ensures rest[j - 1] == entries[j] {
      }
      if i == 0 {
        assert Unnamed(rest, 0, p);
        UnnamedStays(rest, noted, p);
      } else {
        assert rest[i - 1] == entries[i] && Unnamed(rest, i, p);
        DescribeIsLastWord(rest, noted, i - 1, p);
      }
    }
  }

  // ---------------------------------------------------------------- the parser

  function ParseFields(fields: seq<string>, state: map<string, string>): map<string, string>
    decreases |fields|
  {
    if fields == [] then state
    else
      var f, rest := fields[0], fields[1..];
      if |f| < 4 then ParseFields(rest, state)
      else
        var noted := state[f[3..] := f[..2]];
        if f[0] in {'R', 'C'} && rest != [] && rest[0] != "" then ParseFields(rest[1..], noted[rest[0] := f[..2]])
        else ParseFields(rest, noted)
  }

  function Parse(text: string): map<string, string> {
    ParseFields(Split(text, '\0'), map[])
  }

  method GitStatusSnapshot(text: string) returns (state: map<string, string>)
    ensures state == Parse(text)
  {
    state := map[];
    var fields := Split(text, '\0');
    var i := 0;
    while i < |fields|
      invariant 0 <= i <= |fields|
      invariant ParseFields(fields[i..], state) == Parse(text)
    {
      var f := fields[i];
      var rest := fields[i..];
      assert rest[1..] == fields[i + 1..];
      if |f| >= 4 {
        var status, path := f[..2], f[3..];
        state := state[path := status];
        if status[0] == 'R' || status[0] == 'C' {
          if i + 1 < |fields| && fields[i + 1] != "" {
            assert rest[1..][1..] == fields[i + 2..];
            state := state[fields[i + 1] := status];
            i := i + 1;
          }
        }
      }
      i := i + 1;
    }
  }

  function FieldOf(e: Entry): string { e.status + " " + e.path }

  lemma FieldParts(e: Entry)
    requires e.Formed()
    ensures var f := FieldOf(e); |f| >= 4 && f[..2] == e.status && f[3..] == e.path && f[0] == e.status[0]
  {}

  /** An entry without origin is one field. */
  lemma ReadOne(e: Entry, rest: seq<string>, state: map<string, string>)
    requires e.Formed() && e.origin.None? && !e.InIndex()
    ensures ParseFields([FieldOf(e)] + rest, state) == ParseFields(rest, Note(state, e))
  {
    FieldParts(e);
    assert ([FieldOf(e)] + rest)[1..] == rest;
  }

  /** One with an origin in the index is two. */
  lemma ReadTwo(e: Entry, rest: seq<string>, state: map<string, string>)
    requires e.Formed() && e.origin.Some? && e.InIndex()
    ensures ParseFields([FieldOf(e), e.origin.value] + rest, state) == ParseFields(rest, Note(state, e))
  {
    FieldParts(e);
    var fields := [FieldOf(e), e.origin.value] + rest;
    assert fields[1..][0] == e.origin.value && fields[1..][1..] == rest;
  }

  lemma {:induction false} ParseOfFields(entries: seq<Entry>, state: map<string, string>)
    requires forall e <- entries :: e.Formed() && (e.origin.Some? <==> e.InIndex())
    ensures ParseFields(PrintFields(entries) + [""], state) == Describe(entries, state)
    decreases |entries|
  {
    if entries == [] {
      assert ParseFields([""][1..], state) == state;
    } else {
      var e, rest := entries[0], entries[1..];
      var tail := PrintFields(rest) + [""];
      ParseOfFields(rest, Note(state, e));
      FirstFields(entries);
      if e.origin.Some? {
        ReadTwo(e, tail, state);
      } else {
        ReadOne(e, tail, state);
      }
    }
  }

  lemma FirstFields(entries: seq<Entry>)
    requires entries != []
    ensures var e, tail := entries[0], PrintFields(entries[1..]) + [""];
            PrintFields(entries) + [""]
              == (if e.origin.Some? then [FieldOf(e), e.origin.value] else [FieldOf(e)]) + tail
  {}

  lemma {:induction false} PrintFieldsFree(entries: seq<Entry>)
    requires forall e <- entries :: e.Formed()
    ensures Free(PrintFields(entries), '\0')
  {
    if entries != [] {
      PrintFieldsFree(entries[1..]);
      assert entries[0] in entries;
    }
  }

  lemma FieldsOfPrint(entries: seq<Entry>)
    requires forall e <- entries :: e.Formed()
    ensures Parse(Print(entries)) == ParseFields(PrintFields(entries) + [""], map[])
  {
    PrintFieldsFree(entries);
    SplitOfJoin(PrintFields(entries) + [""], '\0');
  }

  /** Parsing what git prints for any list of entries gives back exactly what the
      entries say, when origins come with an R or C in the first letter. */
  lemma ParseOfPrint(entries: seq<Entry>)
    requires forall e <- entries :: e.Formed() && (e.origin.Some? <==> e.InIndex())
    ensures Parse(Print(entries)) == Describe(entries, map[])
  {
    FieldsOfPrint(entries);
    ParseOfFields(entries, map[]);
  }

  /** That condition is exact: an origin that git prints for a rename in the work
      tree (the second letter) is read as an entry of its own. */
  lemma OneEntryParsesIffOriginInIndex(e: Entry)
    requires e.Formed() && (e.InIndex() ==> e.origin.Some?) && e.origin != Some(e.path)
    ensures Parse(Print([e])) == Describe([e], map[]) <==> (e.origin.Some? ==> e.InIndex())
  {
    FieldsOfPrint([e]);
    assert [e][1..] == [];
    if e.origin.Some? && !e.InIndex() {
      var o := e.origin.value;
      OriginMisread(e);
      assert |o| >= 4 ==> |o[3..]| != |o|;
      assert o !in Parse(Print([e])) && o in Describe([e], map[]);
    } else {
      ParseOfFields([e], map[]);
    }
  }

  /** Field j makes `key` a path: it is an entry's path, or is taken for an origin. */
  predicate Gives(fields: seq<string>, j: nat, key: string)
    requires j < |fields|
  {
    || (|fields[j]| >= 4 && fields[j][3..] == key)
    || (j > 0 && fields[j] == key && |fields[j - 1]| >= 4 && fields[j - 1][0] in {'R', 'C'})
  }

  lemma GivesLater(fields: seq<string>, skip: nat, j: nat, key: string)
    requires skip + j < |fields| && Gives(fields[skip..], j, key)
    ensures Gives(fields, skip + j, key)
  {}

  lemma {:induction false} KeysGiven(fields: seq<string>, state: map<string, string>, key: string) returns (j: nat)
    requires key in ParseFields(fields, state) && key !in state
    ensures j < |fields| && Gives(fields, j, key)
    decreases |fields|
  {
    var f, rest := fields[0], fields[1..];
    if |f| < 4 {
      j := KeysGiven(rest, state, key);
      GivesLater(fields, 1, j, key);
      j := 1 + j;
    } else if f[3..] == key {
      j := 0;
    } else {
      var noted := state[f[3..] := f[..2]];
      if f[0] in {'R', 'C'} && rest != [] && rest[0] != "" {
        if rest[0] == key {
          j := 1;
        } else {
          assert rest[1..] == fields[2..];
          j := KeysGiven(rest[1..], noted[rest[0] := f[..2]], key);
          GivesLater(fields, 2, j, key);
          j := 2 + j;
        }
      } else {
        j := KeysGiven(rest, noted, key);
        GivesLater(fields, 1, j, key);
        j := 1 + j;
      }
    }
  }

  /** Field j is the first field of entry k, or its origin behind it, or the empty end. */
  predicate Belongs(entries: seq<Entry>, fields: seq<string>, j: nat, k: nat)
    requires j < |fields|
  {
    && k < |entries|
    && (fields[j] == FieldOf(entries[k])
        || (j > 0 && entries[k].origin == Some(fields[j]) && fields[j - 1] == FieldOf(entries[k])))
  }

  lemma {:induction false} FieldsBelong(entries: seq<Entry>, j: nat) returns (k: nat)
    requires j < |PrintFields(entries)|
    ensures Belongs(entries, PrintFields(entries), j, k)
  {
    var e, rest := entries[0], entries[1..];
    var own := if e.origin.Some? then 2 else 1;
    var fields := PrintFields(entries);
    assert fields[own..] == PrintFields(rest);
    assert fields[0] == FieldOf(e);
    if j < own {
      k := 0;
    } else {
      k := FieldsBelong(rest, j - own);
      BelongsLater(entries, fields, own, j - own, k);
      k := k + 1;
    }
  }

  lemma BelongsLater(entries: seq<Entry>, fields: seq<string>, skip: nat, j: nat, k: nat)
    requires entries != [] && skip + j < |fields| && Belongs(entries[1..], fields[skip..], j, k)
    ensures Belongs(entries, fields, skip + j, k + 1)
  {}

  /** Nothing else in the output can be read as this entry's origin. */
  predicate OriginOnce(entries: seq<Entry>, i: nat)
    requires i < |entries| && entries[i].origin.Some?
  {
    forall k: nat | k < |entries| :: !OtherwiseNames(entries, i, k)
  }

  predicate OtherwiseNames(entries: seq<Entry>, i: nat, k: nat)
    requires i < |entries| && entries[i].origin.Some? && k < |entries|
  {
    var o, e := entries[i].origin.value, entries[k];
    || e.path == o || FieldOf(e) == o
    || (e.origin.Some? && |e.origin.value| >= 4 && e.origin.value[3..] == o)
    || (e.origin == Some(o) && e.InIndex())
  }

  lemma OriginNotGiven(entries: seq<Entry>, i: nat, j: nat)
    requires forall e <- entries :: e.Formed()
    requires i < |entries| && entries[i].origin.Some? && OriginOnce(entries, i)
    requires j < |PrintFields(entries) + [""]|
    ensures !Gives(PrintFields(entries) + [""], j, entries[i].origin.value)
  {
    var fields := PrintFields(entries) + [""];
    if j < |PrintFields(entries)| {
      var k := FieldsBelong(entries, j);
      assert entries[k] in entries && entries[i] in entries;
      FieldParts(entries[k]);
      assert !OtherwiseNames(entries, i, k);
    } else {
      assert entries[i] in entries;
    }
  }

  lemma {:induction false} DescribeKeeps(entries: seq<Entry>, state: map<string, string>, key: string)
    ensures key in state ==> key in Describe(entries, state)
    decreases |entries|
  {
    if entries != [] {
      DescribeKeeps(entries[1..], Note(state, entries[0]), key);
    }
  }

  lemma {:induction false} OriginDescribed(entries: seq<Entry>, state: map<string, string>, i: nat)
    requires i < |entries| && entries[i].origin.Some?
    ensures entries[i].origin.value in Describe(entries, state)
    decreases |entries|
  {
    var noted := Note(state, entries[0]);
    if i == 0 {
      DescribeKeeps(entries[1..], noted, entries[0].origin.value);
    } else {
      OriginDescribed(entries[1..], noted, i - 1);
    }
  }

  /** For any list of entries: where origins outside the index are named by nothing
      else, the output is read back if and only if there is none of them. */
  lemma ParsesIffOriginsInIndex(entries: seq<Entry>)
    requires forall e <- entries :: e.Formed() && (e.InIndex() ==> e.origin.Some?)
    requires forall i: nat | i < |entries| && entries[i].origin.Some? && !entries[i].InIndex() :: OriginOnce(entries, i)
    ensures Parse(Print(entries)) == Describe(entries, map[])
       <==> forall e <- entries | e.origin.Some? :: e.InIndex()
  {
    if forall e <- entries | e.origin.Some? :: e.InIndex() {
      ParseOfPrint(entries);
    } else {
      var e :| e in entries && e.origin.Some? && !e.InIndex();
      var i: nat :| i < |entries| && entries[i] == e;
      OriginDescribed(entries, map[], i);
      FieldsOfPrint(entries);
      if e.origin.value in Parse(Print(entries)) {
        var j := KeysGiven(PrintFields(entries) + [""], map[], e.origin.value);
        OriginNotGiven(entries, i, j);
      }
    }
  }

  /** What becomes of an origin in the work tree. */
  lemma OriginMisread(e: Entry)
    requires e.Formed() && e.origin.Some? && !e.InIndex()
    ensures var o, noted := e.origin.value, map[e.path := e.status];
            Parse(Print([e])) == if |o| < 4 then noted else noted[o[3..] := o[..2]]
  {
    FieldsOfPrint([e]);
    assert [e][1..] == [];
    var f, o := e.status + " " + e.path, e.origin.value;
    var fields := PrintFields([e]) + [""];
    assert fields == [f, o, ""];
    assert f[0] == e.status[0] && f[3..] == e.path && f[..2] == e.status;
    assert fields[1..] == [o, ""] && fields[1..][1..] == [""] && [""][1..] == [];
    var noted: map<string, string> := map[e.path := e.status];
    assert ParseFields(fields, map[]) == ParseFields([o, ""], noted);
    var read := if |o| < 4 then noted else noted[o[3..] := o[..2]];
    assert ParseFields([""], read) == read && ParseFields([o, ""], noted) == read;
  }

  /** A file moved in the work tree: its origin is read as a path of its own, with
      its first two letters for a status. */
  lemma WorkTreeMoveMisread()
    ensures var e := Entry(" R", "new", Some("dir/old"));
            Parse(Print([e])) == map["new" := " R", "/old" := "di"] && "dir/old" in Describe([e], map[])
  {
    var e := Entry(" R", "new", Some("dir/old"));
    assert [e][1..] == [];
    OriginMisread(e);
    assert "dir/old"[3..] == "/old" && "dir/old"[..2] == "di";
  }

  /** Every parsed status has two letters. */
  lemma {:induction false} ParsedStatuses(fields: seq<string>, state: map<string, string>)
    requires forall p <- state :: |state[p]| == 2
    ensures forall p <- ParseFields(fields, state) :: |ParseFields(fields, state)[p]| == 2
    decreases |fields|
  {
    if fields != [] {
      var f, rest := fields[0], fields[1..];
      if |f| < 4 {
        ParsedStatuses(rest, state);
      } else {
        var noted := state[f[3..] := f[..2]];
        if f[0] in {'R', 'C'} && rest != [] && rest[0] != "" {
          ParsedStatuses(rest[1..], noted[rest[0] := f[..2]]);
        } else {
          ParsedStatuses(rest, noted);
        }
      }
    }
  }

  // ---------------------------------------------------------------- order of paths

  predicate Below(a: string, b: string) {
    b != "" && (a == "" || a[0] < b[0] || (a[0] == b[0] && Below(a[1..], b[1..])))
  }

  lemma {:induction false} BelowTotal(a: string, b: string)
    ensures a == b || Below(a, b) || Below(b, a)
    ensures !(Below(a, b) && Below(b, a)) && !Below(a, a)
  {
    if a != "" {
      BelowTotal(a[1..], a[1..]);
    }
    if a != "" && b != "" && a[0] == b[0] {
      BelowTotal(a[1..], b[1..]);
      assert a == [a[0]] + a[1..] && b == [b[0]] + b[1..];
    }
  }

  lemma {:induction false} BelowTransitive(a: string, b: string, c: string)
    requires Below(a, b) && Below(b, c)
    ensures Below(a, c)
  {
    if a != "" && a[0] == b[0] == c[0] {
      BelowTransitive(a[1..], b[1..], c[1..]);
    }
  }

  /** At k the two differ for the first time, a before b. */
  predicate FirstBelow(a: string, b: string, k: nat) {
    k < |a| && k < |b| && a[..k] == b[..k] && a[k] < b[k]
  }

  lemma FirstBelowNext(a: string, b: string, k: nat)
    requires a != "" && b != "" && a[0] == b[0]
    ensures FirstBelow(a, b, k + 1) <==> FirstBelow(a[1..], b[1..], k)
    ensures !FirstBelow(a, b, 0) && (a < b <==> a[1..] < b[1..])
  {
    assert a == [a[0]] + a[1..] && b == [b[0]] + b[1..];
    if k + 1 < |a| && k + 1 < |b| {
      assert a[..k + 1] == [a[0]] + a[1..][..k] && b[..k + 1] == [b[0]] + b[1..][..k];
    }
  }

  /** The order is that of the first character in which the two differ, an end before
      any character. */
  lemma {:induction false} BelowIff(a: string, b: string)
    ensures Below(a, b) <==> a < b || exists k: nat :: FirstBelow(a, b, k)
  {
    if a != "" && b != "" {
      if a[0] == b[0] {
        BelowIff(a[1..], b[1..]);
        forall k: nat {
          FirstBelowNext(a, b, k);
        }
        if k: nat :| FirstBelow(a[1..], b[1..], k) {
          assert FirstBelow(a, b, k + 1);
        }
        forall k: nat | FirstBelow(a, b, k) ensures k > 0 && FirstBelow(a[1..], b[1..], k - 1) {
          FirstBelowNext(a, b, if k > 0 then k - 1 else 0);
        }
      } else if a[0] < b[0] {
        assert FirstBelow(a, b, 0);
      } else {
        forall k: nat {
          AboveAtOnce(a, b, k);
        }
      }
    }
  }

  lemma AboveAtOnce(a: string, b: string, k: nat)
    requires a != "" && b != "" && a[0] > b[0]
    ensures !FirstBelow(a, b, k)
  {
    if 0 < k < |a| && k < |b| {
      assert a[..k][0] == a[0] && b[..k][0] == b[0];
    }
  }

  /** Sorted and without duplicates. */
  predicate Ascending(s: seq<string>) {
    forall i, j | 0 <= i < j < |s| :: Below(s[i], s[j])
  }

  function Elements(s: seq<string>): set<string> { set x | x in s }

  /** An ascending list is determined by its elements. */
  lemma {:induction false} AscendingUnique(s: seq<string>, t: seq<string>)
    requires Ascending(s) && Ascending(t) && Elements(s) == Elements(t)
    ensures s == t
    decreases |s|
  {
    SomeElement(s);
    SomeElement(t);
    if s != [] {
      assert s[0] in Elements(t) && t != [];
      assert t[0] in Elements(s);
      if s[0] != t[0] {
        var i :| 0 <= i < |s| && s[i] == t[0];
        var j :| 0 <= j < |t| && t[j] == s[0];
        assert Below(s[0], t[0]) && Below(t[0], s[0]);
        BelowTotal(s[0], t[0]);
      }
      TailElements(s);
      TailElements(t);
      AscendingUnique(s[1..], t[1..]);
      assert s == [s[0]] + s[1..] && t == [t[0]] + t[1..];
    }
  }

  lemma SomeElement(s: seq<string>)
    ensures s == [] <==> Elements(s) == {}
  {
    if s != [] {
      assert s[0] in Elements(s);
    }
  }

  lemma TailElements(s: seq<string>)
    requires s != [] && Ascending(s)
    ensures Elements(s[1..]) == Elements(s) - {s[0]} && Ascending(s[1..])
  {
    forall i | 0 < i < |s| ensures s[i] != s[0] {
      BelowTotal(s[i], s[i]);
      assert Below(s[0], s[i]);
    }
    assert forall i | 0 <= i < |s[1..]| :: s[1..][i] == s[i + 1];
    assert forall x :: x in s <==> x == s[0] || x in s[1..];
  }

  /** sort.Strings on a set of paths, one insertion at a time. */
  method SortStrings(paths: set<string>) returns (out: seq<string>)
    ensures Ascending(out) && Elements(out) == paths
  {
    out := [];
    var todo := paths;
    while todo != {}
      invariant todo <= paths && Ascending(out) && Elements(out) == paths - todo
      decreases |todo|
    {
      var p :| p in todo;
      todo := todo - {p};
      out := Insert(out, p);
    }
  }

  method Insert(s: seq<string>, p: string) returns (out: seq<string>)
    requires Ascending(s) && p !in Elements(s)
    ensures Ascending(out) && Elements(out) == Elements(s) + {p}
  {
    var i := 0;
    while i < |s| && Below(s[i], p)
      invariant 0 <= i <= |s| && forall j | 0 <= j < i :: Below(s[j], p)
    {
      i := i + 1;
    }
    if i < |s| {
      assert s[i] in Elements(s);
      BelowTotal(s[i], p);
      forall j | i < j < |s| ensures Below(p, s[j]) {
        BelowTransitive(p, s[i], s[j]);
      }
    }
    out := s[..i] + [p] + s[i..];
    forall j, k | 0 <= j < k < |out| ensures Below(out[j], out[k]) {
      assert out[k] == if k < i then s[k] else if k == i then p else s[k - 1];
      assert out[j] == if j < i then s[j] else if j == i then p else s[j - 1];
    }
    assert forall x :: x in out <==> x in s || x == p;
  }

  // ---------------------------------------------------------------- the difference of two snapshots

  function StatusOf(m: map<string, string>, p: string): Option<string> {
    if p in m then Some(m[p]) else None
  }

  /** The paths whose status is not the same in both. */
  function Changed(a: map<string, string>, b: map<string, string>): set<string> {
    set p | p in a.Keys + b.Keys && StatusOf(a, p) != StatusOf(b, p)
  }

  /** A Go map read: a missing key gives "". */
  function Default(m: map<string, string>, p: string): string {
    if p in m then m[p] else ""
  }

  /** The paths the code collects. */
  function Collected(before: map<string, string>, after: map<string, string>): set<string> {
    (set p | p in after && after[p] != Default(before, p))
    + (set p | p in before && p !in after)
  }

  /** The code finds all changes exactly when no new path has an empty status. */
  lemma CollectedIsChangedIff(before: map<string, string>, after: map<string, string>)
    ensures Collected(before, after) == Changed(before, after)
       <==> forall p <- after :: p in before || after[p] != ""
  {
    if Collected(before, after) == Changed(before, after) {
      forall p <- after | p !in before ensures after[p] != "" {
        assert p in Changed(before, after);
      }
    }
    if forall p <- after :: p in before || after[p] != "" {
      forall p ensures p in Collected(before, after) <==> p in Changed(before, after) {
      }
    }
  }

  method ChangedPaths(before: map<string, string>, after: map<string, string>) returns (out: seq<string>)
    ensures Ascending(out) && Elements(out) == Collected(before, after)
  {
    var seen: set<string> := {};
    var todo := after.Keys;
    while todo != {}
      invariant todo <= after.Keys
      invariant forall p :: p in seen <==> p in after && p !in todo && after[p] != Default(before, p)
      decreases |todo|
    {
      var p :| p in todo;
      todo := todo - {p};
      if Default(before, p) != after[p] {
        seen := seen + {p};
      }
    }
    todo := before.Keys;
    while todo != {}
      invariant todo <= before.Keys
      invariant forall p :: p in seen <==>
                  (p in after && after[p] != Default(before, p)) || (p in before && p !in todo && p !in after)
      decreases |todo|
    {
      var p :| p in todo;
      todo := todo - {p};
      if p !in after {
        seen := seen + {p};
      }
    }
    out := SortStrings(seen);
  }

  /** For two parsed snapshots the result is the sorted, duplicate-free list of
      the paths whose status differs, and the same with the snapshots swapped. */
  lemma ChangesOfSnapshots(a: string, b: string, ab: seq<string>, ba: seq<string>)
    requires Ascending(ab) && Elements(ab) == Collected(Parse(a), Parse(b))
    requires Ascending(ba) && Elements(ba) == Collected(Parse(b), Parse(a))
    ensures Elements(ab) == Changed(Parse(a), Parse(b)) && ab == ba
    ensures var m, n := Parse(a), Parse(b);
            forall p :: p in ab <==> (p in m && p !in n) || (p !in m && p in n) || (p in m && p in n && m[p] != n[p])
  {
    ParsedStatuses(Split(a, '\0'), map[]);
    ParsedStatuses(Split(b, '\0'), map[]);
    CollectedIsChangedIff(Parse(a), Parse(b));
    CollectedIsChangedIff(Parse(b), Parse(a));
    assert Changed(Parse(a), Parse(b)) == Changed(Parse(b), Parse(a));
    AscendingUnique(ab, ba);
    assert forall p :: p in ab <==> p in Elements(ab);
  }
}
