/** The walk of the source tree that feeds the copier. */
module TreeWalk {

  /** What readdir yields; only directories and regular files are looked at. */
  datatype Entry =
    | Dir(name: string, entries: seq<Entry>)
    | Reg(name: string, data: seq<int>)
    | Other(name: string)

  /** What the walk does: make a directory, or open a file and queue it. */
  datatype Event = Mkdir(path: string) | Queued(src: string, dst: string, data: seq<int>)

  predicate Skipped(e: Entry) {
    e.name == "." || e.name == ".."
  }

  // ------------------------------------------------------------ the walk

  /** The events of a walk of one directory, in the order of its entries. */
  function Walk(src: string, dst: string, entries: seq<Entry>): seq<Event>
    decreases entries, 0
  {
    if |entries| == 0 then []
    else WalkOne(src, dst, entries[0]) + Walk(src, dst, entries[1..])
  }

  function WalkOne(src: string, dst: string, e: Entry): seq<Event>
    decreases e, 1
  {
    if Skipped(e) then []
    else
      match e
      case Dir(name, entries) =>
        [Mkdir(dst + "/" + name)] + Walk(src + "/" + name, dst + "/" + name, entries)
      case Reg(name, data) => [Queued(src + "/" + name, dst + "/" + name, data)]
      case Other(_) => []
  }

  lemma {:induction false} WalkAppend(src: string, dst: string, xs: seq<Entry>, ys: seq<Entry>)
    ensures Walk(src, dst, xs + ys) == Walk(src, dst, xs) + Walk(src, dst, ys)
    decreases |xs|
  {
    if |xs| == 0 {
      assert xs + ys == ys;
    } else {
      assert (xs + ys)[0] == xs[0] && (xs + ys)[1..] == xs[1..] + ys;
      WalkAppend(src, dst, xs[1..], ys);
    }
  }

  // ------------------------------------------------------------ the same on paths

  /** An event on a path of names below the two roots. */
  datatype PathEvent = Make(path: seq<string>) | Queue(path: seq<string>, data: seq<int>)

  function Join(base: string, path: seq<string>): string
    decreases |path|
  {
    if |path| == 0 then base else Join(base + "/" + path[0], path[1..])
  }

  function Under(name: string, events: seq<PathEvent>): (r: seq<PathEvent>)
    ensures |r| == |events|
  {
    seq(|events|, i requires 0 <= i < |events| => events[i].(path := [name] + events[i].path))
  }

  function Trace(entries: seq<Entry>): seq<PathEvent>
    decreases entries, 0
  {
    if |entries| == 0 then [] else TraceOne(entries[0]) + Trace(entries[1..])
  }

  function TraceOne(e: Entry): seq<PathEvent>
    decreases e, 1
  {
    if Skipped(e) then []
    else
      match e
      case Dir(name, entries) => [Make([name])] + Under(name, Trace(entries))
      case Reg(name, data) => [Queue([name], data)]
      case Other(_) => []
  }

  function Render(src: string, dst: string, ev: PathEvent): Event {
    match ev
    case Make(path) => Mkdir(Join(dst, path))
    case Queue(path, data) => Queued(Join(src, path), Join(dst, path), data)
  }

  function RenderAll(src: string, dst: string, events: seq<PathEvent>): (r: seq<Event>)
    ensures |r| == |events|
  {
    seq(|events|, i requires 0 <= i < |events| => Render(src, dst, events[i]))
  }

  lemma RenderUnder(src: string, dst: string, name: string, events: seq<PathEvent>)
    ensures RenderAll(src, dst, Under(name, events)) == RenderAll(src + "/" + name, dst + "/" + name, events)
  {
    forall i | 0 <= i < |events|
      ensures Render(src, dst, Under(name, events)[i]) == Render(src + "/" + name, dst + "/" + name, events[i])
    {
      assert ([name] + events[i].path)[1..] == events[i].path;
    }
  }

  /** The walk does what the walk on paths says, with the two roots put in front. */
  lemma {:induction false} WalkIsRendered(src: string, dst: string, entries: seq<Entry>)
    ensures Walk(src, dst, entries) == RenderAll(src, dst, Trace(entries))
    decreases entries, 0
  {
    if |entries| > 0 {
      WalkOneIsRendered(src, dst, entries[0]);
      WalkIsRendered(src, dst, entries[1..]);
    }
  }

  lemma {:induction false} WalkOneIsRendered(src: string, dst: string, e: Entry)
    ensures WalkOne(src, dst, e) == RenderAll(src, dst, TraceOne(e))
    decreases e, 1
  {
    if !Skipped(e) {
      match e
      case Dir(name, entries) =>
        WalkIsRendered(src + "/" + name, dst + "/" + name, entries);
        RenderUnder(src, dst, name, Trace(entries));
        assert Join(dst, [name]) == Join(dst + "/" + name, [name][1..]);
      case Reg(name, data) =>
        assert Join(dst, [name]) == Join(dst + "/" + name, [name][1..]);
        assert Join(src, [name]) == Join(src + "/" + name, [name][1..]);
      case Other(_) =>
    }
  }

  // ------------------------------------------------------------ what the tree contains

  /** The tree has a regular file with these bytes at this path. */
  ghost predicate IsFile(entries: seq<Entry>, path: seq<string>, data: seq<int>)
    decreases |path|
  {
    |path| > 0 && path[0] != "." && path[0] != ".."
    && exists i :: 0 <= i < |entries| && entries[i].name == path[0]
                     && if |path| == 1 then entries[i] == Reg(path[0], data)
                        else entries[i].Dir? && IsFile(entries[i].entries, path[1..], data)
  }

  ghost predicate IsDir(entries: seq<Entry>, path: seq<string>)
    decreases |path|
  {
    |path| > 0 && path[0] != "." && path[0] != ".."
    && exists i :: 0 <= i < |entries| && entries[i].name == path[0]
                     && entries[i].Dir? && (|path| == 1 || IsDir(entries[i].entries, path[1..]))
  }

  /** The tree has what the event is about. */
  ghost predicate Has(entries: seq<Entry>, ev: PathEvent) {
    match ev
    case Make(path) => IsDir(entries, path)
    case Queue(path, data) => IsFile(entries, path, data)
  }

  /** ... at or below this entry. */
  ghost predicate HasOne(e: Entry, ev: PathEvent) {
    && |ev.path| > 0 && e.name == ev.path[0] && e.name != "." && e.name != ".."
    && if |ev.path| == 1 then (if ev.Make? then e.Dir? else e == Reg(ev.path[0], ev.data))
       else e.Dir? && Has(e.entries, ev.(path := ev.path[1..]))
  }

  lemma HasSplits(entries: seq<Entry>, ev: PathEvent)
    requires |entries| > 0
    ensures Has(entries, ev) <==> HasOne(entries[0], ev) || Has(entries[1..], ev)
  {
    if Has(entries[1..], ev) {
      var i :| 0 <= i < |entries[1..]| && HasOne(entries[1..][i], ev);
      assert entries[i + 1] == entries[1..][i];
      assert HasOne(entries[i + 1], ev);
    }
    if Has(entries, ev) {
      var i :| 0 <= i < |entries| && HasOne(entries[i], ev);
      if i > 0 {
        assert entries[1..][i - 1] == entries[i];
      }
    }
  }

  lemma UnderMember(name: string, events: seq<PathEvent>, ev: PathEvent)
    ensures ev in Under(name, events) <==> |ev.path| > 0 && ev.path[0] == name && ev.(path := ev.path[1..]) in events
  {
    if ev in Under(name, events) {
      var i :| 0 <= i < |events| && Under(name, events)[i] == ev;
      assert ev.path[1..] == events[i].path;
    }
    if |ev.path| > 0 && ev.path[0] == name && ev.(path := ev.path[1..]) in events {
      var i :| 0 <= i < |events| && events[i] == ev.(path := ev.path[1..]);
      assert [name] + events[i].path == ev.path;
      assert Under(name, events)[i] == ev;
    }
  }

  /** The walk makes exactly the directories and queues exactly the regular files of
      the tree. */
  lemma {:induction false} TraceMembers(entries: seq<Entry>, ev: PathEvent)
    ensures ev in Trace(entries) <==> Has(entries, ev)
    decreases entries, 0
  {
    if |entries| > 0 {
      HasSplits(entries, ev);
      TraceOneMembers(entries[0], ev);
      TraceMembers(entries[1..], ev);
    }
  }

  lemma {:induction false} TraceOneMembers(e: Entry, ev: PathEvent)
    ensures ev in TraceOne(e) <==> HasOne(e, ev)
    decreases e, 1
  {
    if !Skipped(e) && e.Dir? {
      UnderMember(e.name, Trace(e.entries), ev);
      if |ev.path| > 0 {
        TraceMembers(e.entries, ev.(path := ev.path[1..]));
        if |ev.path| == 1 {
          assert ev.path == [ev.path[0]];
          assert !Has(e.entries, ev.(path := ev.path[1..]));
        }
      }
    } else if !Skipped(e) && e.Reg? && |ev.path| == 1 {
      assert ev.path == [ev.path[0]];
    }
  }

  // ------------------------------------------------------------ once each

  predicate SlashFree(name: string) {
    '/' !in name
  }

  /** What a file system guarantees: the names in a directory are distinct and have
      no slash. */
  ghost predicate WellFormed(entries: seq<Entry>) {
    && (forall i, k :: 0 <= i < k < |entries| ==> entries[i].name != entries[k].name)
    && (forall i :: 0 <= i < |entries| ==> WellFormedOne(entries[i]))
  }

  ghost predicate WellFormedOne(e: Entry) {
    SlashFree(e.name) && (e.Dir? ==> WellFormed(e.entries))
  }

  ghost predicate DistinctPaths(events: seq<PathEvent>) {
    forall i, k :: 0 <= i < k < |events| ==> events[i].path != events[k].path
  }

  lemma {:induction false} TraceOnce(entries: seq<Entry>)
    requires WellFormed(entries)
    ensures DistinctPaths(Trace(entries))
    decreases entries, 0
  {
    if |entries| > 0 {
      var a, b := TraceOne(entries[0]), Trace(entries[1..]);
      TraceOneOnce(entries[0]);
      TraceOnce(entries[1..]);
      forall i, k | 0 <= i < |a| && 0 <= k < |b| ensures a[i].path != b[k].path {
        TraceOneMembers(entries[0], a[i]);
        TraceMembers(entries[1..], b[k]);
        var m :| 0 <= m < |entries[1..]| && HasOne(entries[1..][m], b[k]);
        assert entries[1..][m] == entries[m + 1];
      }
    }
  }

  lemma {:induction false} TraceOneOnce(e: Entry)
    requires WellFormedOne(e)
    ensures DistinctPaths(TraceOne(e))
    decreases e, 1
  {
    if !Skipped(e) && e.Dir? {
      var below := Trace(e.entries);
      TraceOnce(e.entries);
      forall i | 0 <= i < |below| ensures |Under(e.name, below)[i].path| > 1 {
        TraceMembers(e.entries, below[i]);
      }
      forall i, k | 0 <= i < k < |below| ensures Under(e.name, below)[i].path != Under(e.name, below)[k].path {
        assert ([e.name] + below[i].path)[1..] == below[i].path;
        assert ([e.name] + below[k].path)[1..] == below[k].path;
      }
    }
  }

  // ------------------------------------------------------------ directories first

  /** Everything below the root is preceded by the making of its directory. */
  ghost predicate MadeBefore(events: seq<PathEvent>) {
    forall k :: 0 <= k < |events| && |events[k].path| > 1 ==>
                  exists l :: 0 <= l < k && events[l] == Make(Parent(events[k].path))
  }

  function Parent(path: seq<string>): seq<string>
    requires |path| > 0
  {
    path[..|path| - 1]
  }

  lemma MadeBeforeConcat(a: seq<PathEvent>, b: seq<PathEvent>)
    requires MadeBefore(a) && MadeBefore(b)
    ensures MadeBefore(a + b)
  {
    forall k | 0 <= k < |a + b| && |(a + b)[k].path| > 1
      ensures exists l :: 0 <= l < k && (a + b)[l] == Make(Parent((a + b)[k].path))
    {
      if k < |a| {
        var l :| 0 <= l < k && a[l] == Make(Parent(a[k].path));
        assert (a + b)[l] == Make(Parent((a + b)[k].path));
      } else {
        var l :| 0 <= l < k - |a| && b[l] == Make(Parent(b[k - |a|].path));
        assert (a + b)[|a| + l] == Make(Parent((a + b)[k].path));
      }
    }
  }

  lemma ParentUnder(name: string, path: seq<string>)
    requires |path| > 0
    ensures Parent([name] + path) == [name] + Parent(path)
  {
  }

  lemma MadeBeforeUnder(name: string, events: seq<PathEvent>)
    requires MadeBefore(events) && forall i :: 0 <= i < |events| ==> |events[i].path| > 0
    ensures MadeBefore([Make([name])] + Under(name, events))
  {
    var all := [Make([name])] + Under(name, events);
    forall k | 0 <= k < |all| && |all[k].path| > 1
      ensures exists l :: 0 <= l < k && all[l] == Make(Parent(all[k].path))
    {
      var path := events[k - 1].path;
      assert all[k].path == [name] + path;
      ParentUnder(name, path);
      if |path| == 1 {
        assert all[0] == Make(Parent(all[k].path));
      } else {
        var l :| 0 <= l < k - 1 && events[l] == Make(Parent(path));
        assert all[l + 1] == Under(name, events)[l] == Make([name] + Parent(path));
      }
    }
  }

  lemma {:induction false} DirectoriesFirst(entries: seq<Entry>)
    ensures MadeBefore(Trace(entries))
    decreases entries, 0
  {
    if |entries| > 0 {
      DirectoriesFirstOne(entries[0]);
      DirectoriesFirst(entries[1..]);
      MadeBeforeConcat(TraceOne(entries[0]), Trace(entries[1..]));
    }
  }

  lemma {:induction false} DirectoriesFirstOne(e: Entry)
    ensures MadeBefore(TraceOne(e))
    decreases e, 1
  {
    if !Skipped(e) && e.Dir? {
      var below := Trace(e.entries);
      DirectoriesFirst(e.entries);
      forall i | 0 <= i < |below| ensures |below[i].path| > 0 {
        TraceMembers(e.entries, below[i]);
      }
      MadeBeforeUnder(e.name, below);
    }
  }

  // ------------------------------------------------------------ names of files

  /** What a path adds to the root it is joined to. */
  function Suffix(path: seq<string>): string {
    if |path| == 0 then "" else "/" + path[0] + Suffix(path[1..])
  }

  lemma {:induction false} JoinIsSuffix(base: string, path: seq<string>)
    ensures Join(base, path) == base + Suffix(path)
    decreases |path|
  {
    if |path| > 0 {
      JoinIsSuffix(base + "/" + path[0], path[1..]);
      assert (base + "/" + path[0]) + Suffix(path[1..]) == base + ("/" + path[0] + Suffix(path[1..]));
    } else {
      assert base + "" == base;
    }
  }

  lemma CutAtSlash(a: string, x: string, b: string, y: string)
    requires SlashFree(a) && SlashFree(b) && a + x == b + y
    requires (x == "" || x[0] == '/') && (y == "" || y[0] == '/')
    ensures a == b && x == y
  {
    var z := a + x;
    assert z == b + y;
    assert x != "" ==> z[|a|] == '/';
    assert y != "" ==> z[|b|] == '/';
    assert forall i :: 0 <= i < |a| ==> z[i] == a[i] && z[i] != '/';
    assert forall i :: 0 <= i < |b| ==> z[i] == b[i] && z[i] != '/';
    assert |a| == |b|;
    assert a == (a + x)[..|a|] && b == (b + y)[..|a|];
    assert x == (a + x)[|a|..] && y == (b + y)[|a|..];
  }

  lemma {:induction false} SuffixInjective(p: seq<string>, q: seq<string>)
    requires forall i :: 0 <= i < |p| ==> SlashFree(p[i])
    requires forall i :: 0 <= i < |q| ==> SlashFree(q[i])
    requires Suffix(p) == Suffix(q)
    ensures p == q
    decreases |p|
  {
    if |p| > 0 && |q| > 0 {
      var x, y := Suffix(p[1..]), Suffix(q[1..]);
      assert p[0] + x == Suffix(p)[1..] && q[0] + y == Suffix(q)[1..];
      CutAtSlash(p[0], x, q[0], y);
      SuffixInjective(p[1..], q[1..]);
      assert p == [p[0]] + p[1..] && q == [q[0]] + q[1..];
    }
  }

  /** Two paths of names without slashes never name the same file. */
  lemma JoinInjective(base: string, p: seq<string>, q: seq<string>)
    requires forall i :: 0 <= i < |p| ==> SlashFree(p[i])
    requires forall i :: 0 <= i < |q| ==> SlashFree(q[i])
    requires Join(base, p) == Join(base, q)
    ensures p == q
  {
    JoinIsSuffix(base, p);
    JoinIsSuffix(base, q);
    assert Suffix(p) == Join(base, p)[|base|..] && Suffix(q) == Join(base, q)[|base|..];
    SuffixInjective(p, q);
  }

  lemma {:induction false} PathsSlashFree(entries: seq<Entry>, ev: PathEvent)
    requires WellFormed(entries) && Has(entries, ev)
    ensures forall i :: 0 <= i < |ev.path| ==> SlashFree(ev.path[i])
    decreases |ev.path|
  {
    var i :| 0 <= i < |entries| && HasOne(entries[i], ev);
    assert HasOne(entries[i], ev) && WellFormedOne(entries[i]);
    if |ev.path| > 1 {
      var rest := ev.(path := ev.path[1..]);
      PathsSlashFree(entries[i].entries, rest);
      forall k | 0 <= k < |ev.path| ensures SlashFree(ev.path[k]) {
        assert k > 0 ==> ev.path[k] == rest.path[k - 1];
      }
    }
  }

  function Target(ev: Event): string {
    if ev.Mkdir? then ev.path else ev.dst
  }

  lemma WalkMembers(src: string, dst: string, entries: seq<Entry>, ev: Event)
    ensures ev in Walk(src, dst, entries) <==> exists p :: Has(entries, p) && ev == Render(src, dst, p)
  {
    var trace, walk := Trace(entries), Walk(src, dst, entries);
    WalkIsRendered(src, dst, entries);
    if ev in walk {
      var i :| 0 <= i < |walk| && walk[i] == ev;
      TraceMembers(entries, trace[i]);
      assert Has(entries, trace[i]) && ev == Render(src, dst, trace[i]);
    }
    if p :| Has(entries, p) && ev == Render(src, dst, p) {
      TraceMembers(entries, p);
      var i :| 0 <= i < |trace| && trace[i] == p;
      assert walk[i] == ev;
    }
  }

  lemma TargetsDiffer(src: string, dst: string, entries: seq<Entry>, i: nat, k: nat)
    requires WellFormed(entries) && i < k < |Walk(src, dst, entries)|
    ensures Target(Walk(src, dst, entries)[i]) != Target(Walk(src, dst, entries)[k])
  {
    var trace := Trace(entries);
    WalkIsRendered(src, dst, entries);
    TraceOnce(entries);
    TraceMembers(entries, trace[i]);
    TraceMembers(entries, trace[k]);
    PathsSlashFree(entries, trace[i]);
    PathsSlashFree(entries, trace[k]);
    if Join(dst, trace[i].path) == Join(dst, trace[k].path) {
      JoinInjective(dst, trace[i].path, trace[k].path);
    }
  }

  /** The mirror image.  An event of the walk makes a directory of the tree, or queues
      a regular file with its bytes, under the corresponding name below the
      destination; every directory and every regular file has its event; no two
      events have the same destination, so each has exactly one; and whatever lies
      below the top comes after the making of its directory. */
  lemma Mirrors(src: string, dst: string, entries: seq<Entry>)
    requires WellFormed(entries)
    ensures forall ev :: ev in Walk(src, dst, entries) <==> exists p :: Has(entries, p) && ev == Render(src, dst, p)
    ensures forall i, k :: 0 <= i < k < |Walk(src, dst, entries)| ==>
                             Target(Walk(src, dst, entries)[i]) != Target(Walk(src, dst, entries)[k])
    ensures MadeBefore(Trace(entries)) && Walk(src, dst, entries) == RenderAll(src, dst, Trace(entries))
  {
    WalkIsRendered(src, dst, entries);
    DirectoriesFirst(entries);
    forall ev ensures ev in Walk(src, dst, entries) <==> exists p :: Has(entries, p) && ev == Render(src, dst, p) {
      WalkMembers(src, dst, entries, ev);
    }
    forall i, k | 0 <= i < k < |Walk(src, dst, entries)|
      ensures Target(Walk(src, dst, entries)[i]) != Target(Walk(src, dst, entries)[k])
    {
      TargetsDiffer(src, dst, entries, i, k);
    }
  }

  // ------------------------------------------------------------ counts and the imperative walk

  function Directories(entries: seq<Entry>): nat
    decreases entries, 0
  {
    if |entries| == 0 then 0 else DirectoriesOne(entries[0]) + Directories(entries[1..])
  }

  function DirectoriesOne(e: Entry): nat
    decreases e, 1
  {
    if !Skipped(e) && e.Dir? then 1 + Directories(e.entries) else 0
  }

  function RegularFiles(entries: seq<Entry>): nat
    decreases entries, 0
  {
    if |entries| == 0 then 0 else RegularFilesOne(entries[0]) + RegularFiles(entries[1..])
  }

  function RegularFilesOne(e: Entry): nat
    decreases e, 1
  {
    if Skipped(e) then 0 else if e.Reg? then 1 else if e.Dir? then RegularFiles(e.entries) else 0
  }

  lemma {:induction false} CountsAppend(xs: seq<Entry>, ys: seq<Entry>)
    ensures Directories(xs + ys) == Directories(xs) + Directories(ys)
    ensures RegularFiles(xs + ys) == RegularFiles(xs) + RegularFiles(ys)
    decreases |xs|
  {
    if |xs| == 0 {
      assert xs + ys == ys;
    } else {
      assert (xs + ys)[0] == xs[0] && (xs + ys)[1..] == xs[1..] + ys;
      CountsAppend(xs[1..], ys);
    }
  }

  /** What one more entry adds. */
  lemma Prefixes(src: string, dst: string, entries: seq<Entry>, i: nat)
    requires i < |entries|
    ensures Walk(src, dst, entries[..i + 1]) == Walk(src, dst, entries[..i]) + WalkOne(src, dst, entries[i])
    ensures Directories(entries[..i + 1]) == Directories(entries[..i]) + DirectoriesOne(entries[i])
    ensures RegularFiles(entries[..i + 1]) == RegularFiles(entries[..i]) + RegularFilesOne(entries[i])
  {
    var e := entries[i];
    assert entries[..i + 1] == entries[..i] + [e];
    WalkAppend(src, dst, entries[..i], [e]);
    CountsAppend(entries[..i], [e]);
    assert Walk(src, dst, [e]) == WalkOne(src, dst, e) && Directories([e]) == DirectoriesOne(e)
           && RegularFiles([e]) == RegularFilesOne(e);
  }

  // ------------------------------------------------------------ entry by entry

  /** Every regular file of a directory is queued, hidden or not, and every directory is
      made and walked; only the directory itself and its parent are passed over. */
  lemma {:induction false} EveryEntryIsWalked(src: string, dst: string, entries: seq<Entry>, e: Entry)
    requires e in entries && e.name != "." && e.name != ".."
    ensures e.Reg? ==> Queued(src + "/" + e.name, dst + "/" + e.name, e.data) in Walk(src, dst, entries)
    ensures e.Dir? ==> Mkdir(dst + "/" + e.name) in Walk(src, dst, entries)
    ensures e.Dir? ==> forall ev :: ev in Walk(src + "/" + e.name, dst + "/" + e.name, e.entries) ==> ev in Walk(src, dst, entries)
    decreases |entries|
  {
    if entries[0] != e {
      assert e in entries[1..];
      EveryEntryIsWalked(src, dst, entries[1..], e);
    }
  }

  /** A path below a root is the root and the names, a slash before each. */
  lemma {:induction false} JoinAddsName(base: string, path: seq<string>, name: string)
    ensures Join(base, []) == base && Join(base, path + [name]) == Join(base, path) + "/" + name
    decreases |path|
  {
    if |path| > 0 {
      assert (path + [name])[0] == path[0] && (path + [name])[1..] == path[1..] + [name];
      JoinAddsName(base + "/" + path[0], path[1..], name);
    } else {
      assert path + [name] == [name] && [name][1..] == [];
    }
  }

  // ------------------------------------------------------------ the counts are those of the events

  function MkdirsIn(events: seq<Event>): nat {
    if |events| == 0 then 0 else (if events[0].Mkdir? then 1 else 0) + MkdirsIn(events[1..])
  }

  lemma {:induction false} MkdirsAppend(a: seq<Event>, b: seq<Event>)
    ensures MkdirsIn(a + b) == MkdirsIn(a) + MkdirsIn(b)
    decreases |a|
  {
    if |a| == 0 {
      assert a + b == b;
    } else {
      assert (a + b)[0] == a[0] && (a + b)[1..] == a[1..] + b;
      MkdirsAppend(a[1..], b);
    }
  }

  /** One directory is counted per directory made, one regular file per file queued. */
  lemma {:induction false} CountsAreEvents(src: string, dst: string, entries: seq<Entry>)
    ensures Directories(entries) == MkdirsIn(Walk(src, dst, entries))
    ensures Directories(entries) + RegularFiles(entries) == |Walk(src, dst, entries)|
    decreases entries, 0
  {
    if |entries| > 0 {
      CountsAreEventsOne(src, dst, entries[0]);
      CountsAreEvents(src, dst, entries[1..]);
      MkdirsAppend(WalkOne(src, dst, entries[0]), Walk(src, dst, entries[1..]));
    }
  }

  lemma {:induction false} CountsAreEventsOne(src: string, dst: string, e: Entry)
    ensures DirectoriesOne(e) == MkdirsIn(WalkOne(src, dst, e))
    ensures DirectoriesOne(e) + RegularFilesOne(e) == |WalkOne(src, dst, e)|
    decreases e, 1
  {
    if !Skipped(e) {
      match e
      case Dir(name, entries) =>
        CountsAreEvents(src + "/" + name, dst + "/" + name, entries);
        var below := Walk(src + "/" + name, dst + "/" + name, entries);
        MkdirsAppend([Mkdir(dst + "/" + name)], below);
      case Reg(name, data) =>
        assert MkdirsIn([Queued(src + "/" + name, dst + "/" + name, data)]) == MkdirsIn([]) == 0;
      case Other(_) =>
    }
  }

  /** The walker of the program, with its two counters; `events` records the calls of
      mkdir and the files it opened and queued. */
  class Walker {
    var directoryCount: nat
    var regularFileCount: nat
    var events: seq<Event>

    constructor ()
      ensures directoryCount == 0 && regularFileCount == 0 && events == []
    {
      directoryCount, regularFileCount, events := 0, 0, [];
    }

    method CopyAll(src: string, dst: string, entries: seq<Entry>)
      modifies this
      ensures events == old(events) + Walk(src, dst, entries)
      ensures directoryCount == old(directoryCount) + Directories(entries)
      ensures regularFileCount == old(regularFileCount) + RegularFiles(entries)
      decreases entries
    {
      for i := 0 to |entries|
        invariant events == old(events) + Walk(src, dst, entries[..i])
        invariant directoryCount == old(directoryCount) + Directories(entries[..i])
        invariant regularFileCount == old(regularFileCount) + RegularFiles(entries[..i])
      {
        var e := entries[i];
        Prefixes(src, dst, entries, i);
        if e.name != "." && e.name != ".." {
          match e {
            case Dir(name, below) =>
              directoryCount := directoryCount + 1;
              events := events + [Mkdir(dst + "/" + name)];
              CopyAll(src + "/" + name, dst + "/" + name, below);
            case Reg(name, data) =>
              regularFileCount := regularFileCount + 1;
              events := events + [Queued(src + "/" + name, dst + "/" + name, data)];
            case Other(_) =>
          }
        }
      }
      assert entries[..|entries|] == entries;
    }
  }
}
