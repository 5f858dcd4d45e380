/** dns/hosts.go: the time- and stamp-based cache around the two indexes, one
    call at a time, and over all runs of lookups and file writes. */
module HostsCache {
  import opened Basics
  import opened HostsIndex

  /** Nanoseconds. */
  type Time = int

  const CACHE_MAX_AGE: Time := 5_000_000_000

  /** Modification time and size, as os.Stat reports them. */
  datatype Stamp = Stamp(mtime: Time, size: int)

  /** What is stored when os.Stat fails. */
  const ZERO_STAMP := Stamp(0, 0)

  /** What os.Open and reading give: the lines, a missing or unreadable file,
      or another error. */
  datatype OpenResult = Lines(lines: seq<string>) | Refused | Failed

  /** The package variable `hosts`. */
  datatype Cache = Cache(
    byName: map<string, ByName>,
    byAddr: map<string, seq<string>>,
    expire: Time,
    path: string,
    stamp: Stamp)

  const EMPTY_CACHE := Cache(map[], map[], 0, "", ZERO_STAMP)

  predicate Fast(c: Cache, now: Time, hp: string)
  {
    now < c.expire && c.path == hp && |c.byName| > 0
  }

  predicate StampMatches(c: Cache, hp: string, stat: Option<Stamp>)
  {
    stat.Some? && c.path == hp && c.stamp == stat.value
  }

  function Refreshed(c: Cache, now: Time): Cache
  {
    c.(expire := now + CACHE_MAX_AGE)
  }

  /** A cache rebuilt from the lines that were read. */
  function Rebuilt(lib: Lib, now: Time, hp: string, stat: Option<Stamp>, lines: seq<string>): Cache
  {
    var es := Entries(lib, lines);
    Cache(NameIndex(es), AddrIndex(es), now + CACHE_MAX_AGE, hp, if stat.Some? then stat.value else ZERO_STAMP)
  }

  /** readHosts as a function of the cache and of what the system answers. */
  function ReadHostsResult(lib: Lib, c: Cache, now: Time, hp: string, stat: Option<Stamp>, open: OpenResult): Cache
  {
    if Fast(c, now, hp) then c
    else if StampMatches(c, hp, stat) then Refreshed(c, now)
    else
      match open
      case Failed => c
      case Refused => Rebuilt(lib, now, hp, stat, [])
      case Lines(lines) => Rebuilt(lib, now, hp, stat, lines)
  }

  class Hosts {
    var byName: map<string, ByName>
    var byAddr: map<string, seq<string>>
    var expire: Time
    var path: string
    var mtime: Time
    var size: int

    function View(): Cache
      reads this
    {
      Cache(byName, byAddr, expire, path, Stamp(mtime, size))
    }

    constructor ()
      ensures View() == EMPTY_CACHE
    {
      byName, byAddr := map[], map[];
      expire, path, mtime, size := 0, "", 0, 0;
    }

    method ReadHosts(lib: Lib, now: Time, hp: string, stat: Option<Stamp>, open: OpenResult)
      modifies this
      ensures View() == ReadHostsResult(lib, old(View()), now, hp, stat, open)
      ensures var fast := now < old(expire) && old(path) == hp && |old(byName)| > 0;
              var same := stat.Some? && old(path) == hp && stat.value == Stamp(old(mtime), old(size));
              && (fast ==> View() == old(View()))
              && (!fast && same ==> View() == old(View()).(expire := now + 5_000_000_000))
              && (!fast && !same && open.Failed? ==> View() == old(View()))
              && (!fast && !same && !open.Failed? ==>
                    && expire == now + 5_000_000_000 && path == hp
                    && Stamp(mtime, size) == (if stat.Some? then stat.value else Stamp(0, 0))
                    && (open.Refused? ==> byName == map[] && byAddr == map[])
                    && (open.Lines? ==> byName == NameIndex(Entries(lib, open.lines)) &&
                                        byAddr == AddrIndex(Entries(lib, open.lines))))
    {
      if now < expire && path == hp && |byName| > 0 {
        return;
      }
      if stat.Some? && path == hp && mtime == stat.value.mtime && size == stat.value.size {
        expire := now + CACHE_MAX_AGE;
        return;
      }
      if open.Failed? {
        return;
      }
      var hs: map<string, ByName>, is': map<string, seq<string>> := map[], map[];
      if open.Lines? {
        hs, is' := BuildIndexes(lib, open.lines);
      } else {
        assert Entries(lib, []) == [];
      }
      expire := now + CACHE_MAX_AGE;
      path := hp;
      byName := hs;
      byAddr := is';
      mtime := if stat.Some? then stat.value.mtime else 0;
      size := if stat.Some? then stat.value.size else 0;
    }

    method LookupStaticHost(lib: Lib, host: string, now: Time, hp: string, stat: Option<Stamp>, open: OpenResult)
        returns (addrs: seq<string>, canonical: string)
      modifies this
      ensures View() == ReadHostsResult(lib, old(View()), now, hp, stat, open)
      ensures addrs == AddrList(byName, Key(lib, host))
      ensures canonical == if Key(lib, host) in byName then byName[Key(lib, host)].canonicalName else ""
    {
      ReadHosts(lib, now, hp, stat, open);
      if |byName| != 0 {
        var key := AbsDomainName(ToLower(lib, host));
        if key in byName {
          return byName[key].addrs, byName[key].canonicalName;
        }
      }
      return [], "";
    }

    method LookupStaticAddr(lib: Lib, addr: string, now: Time, hp: string, stat: Option<Stamp>, open: OpenResult)
        returns (names: seq<string>)
      modifies this
      ensures View() == ReadHostsResult(lib, old(View()), now, hp, stat, open)
      ensures var a := lib.parseLiteralIP(addr); names == if a == "" then [] else NameList(byAddr, a)
    {
      ReadHosts(lib, now, hp, stat, open);
      var a := lib.parseLiteralIP(addr);
      if a == "" {
        return [];
      }
      if |byAddr| != 0 {
        if a in byAddr {
          return byAddr[a];
        }
      }
      return [];
    }
  }

  // --- All runs of lookups and file writes ---

  datatype File = File(stamp: Stamp, lines: seq<string>)

  /** A lookup holds the mutex from its first step to its last, so at most one
      is under way: it has called os.Stat at `now` and not yet read the file. */
  datatype Reader = Idle | Reading(now: Time, stat: Option<Stamp>)

  /** `checked` is the time of the last stamp match or rebuild, `didOpen` says
      whether the last rebuild could open the file, `used` holds every stamp a
      write has given. */
  datatype World = World(
    file: Option<File>,
    used: set<Stamp>,
    clock: Time,
    cache: Cache,
    reader: Reader,
    checked: Option<Time>,
    didOpen: bool)

  datatype Event =
    | Tick(dt: nat)
    | Write(file: File)
    | Remove
    | Begin(statFails: bool)  // a lookup starts, up to and with os.Stat, which may fail
    | Finish(open: OpenResult)  // the rest of it

  function Start(clock: Time, file: Option<File>): World
  {
    World(file, if file.Some? then {file.value.stamp} else {}, clock, EMPTY_CACHE, Idle, None, false)
  }

  function StatNow(w: World, statFails: bool): Option<Stamp>
  {
    if statFails || w.file.None? then None else Some(w.file.value.stamp)
  }

  /** What reading yields: the lines of the file when it still has the stamp seen
      by os.Stat, anything at all when it was written to in between. */
  function ReadNow(w: World, stat: Option<Stamp>, open: OpenResult): OpenResult
  {
    if open.Lines? && w.file.Some? && stat == Some(w.file.value.stamp) then Lines(w.file.value.lines) else open
  }

  /** An event that cannot happen leaves the world alone. */
  function Apply(lib: Lib, hp: string, w: World, e: Event): World
  {
    match e
    case Tick(dt) => w.(clock := w.clock + dt)
    case Write(f) =>
      if f.stamp in w.used || f.stamp == ZERO_STAMP then w
      else w.(file := Some(f), used := w.used + {f.stamp})
    case Remove => w.(file := None)
    case Begin(statFails) =>
      if w.reader != Idle || Fast(w.cache, w.clock, hp) then w
      else
        var stat := StatNow(w, statFails);
        if StampMatches(w.cache, hp, stat) then
          w.(cache := Refreshed(w.cache, w.clock), checked := Some(w.clock))
        else w.(reader := Reading(w.clock, stat))
    case Finish(open) =>
      if w.reader == Idle then w
      else
        var got := ReadNow(w, w.reader.stat, open);
        match got
        case Failed => w.(reader := Idle)
        case _ =>
          var lines := if got.Lines? then got.lines else [];
          w.(cache := Rebuilt(lib, w.reader.now, hp, w.reader.stat, lines),
             reader := Idle, checked := Some(w.reader.now), didOpen := got.Lines?)
  }

  function Run(lib: Lib, hp: string, w: World, events: seq<Event>): World
  {
    if events == [] then w else Apply(lib, hp, Run(lib, hp, w, events[..|events| - 1]), events[|events| - 1])
  }

  /** A lookup that starts and ends with no event in between does to the cache
      what the method does with the same answers. */
  lemma OneCall(lib: Lib, hp: string, w: World, statFails: bool, open: OpenResult)
    requires w.reader == Idle
    ensures var stat := StatNow(w, statFails);
            var w1 := Apply(lib, hp, w, Begin(statFails));
            var w2 := Apply(lib, hp, w1, Finish(open));
            w2.cache == ReadHostsResult(lib, w.cache, w.clock, hp, stat, ReadNow(w, stat, open)) && w2.reader == Idle
  {
  }

  // --- The invariant ---

  ghost predicate Indexes(lib: Lib, c: Cache, lines: seq<string>)
  {
    c.byName == NameIndex(Entries(lib, lines)) && c.byAddr == AddrIndex(Entries(lib, lines))
  }

  /** The lookup under way has seen a stamp that is not the stored one, or none. */
  ghost predicate SawAnother(w: World)
    requires w.reader.Reading?
  {
    w.reader.stat.Some? ==> w.reader.stat.value in w.used && w.reader.stat.value != w.cache.stamp
  }

  ghost predicate Inv(lib: Lib, hp: string, w: World)
  {
    && (w.file.Some? ==> w.file.value.stamp in w.used)
    && ZERO_STAMP !in w.used
    && (w.cache.stamp == ZERO_STAMP || w.cache.stamp in w.used)
    && (w.reader.Reading? ==> w.reader.now <= w.clock && SawAnother(w))
    && (w.checked.None? ==> w.cache == EMPTY_CACHE && !w.didOpen)
    && (w.checked.Some? ==>
          w.checked.value <= w.clock && w.cache.expire == w.checked.value + CACHE_MAX_AGE && w.cache.path == hp)
    && (!w.didOpen ==> Indexes(lib, w.cache, []))
    && (w.didOpen && w.file.Some? && w.cache.stamp == w.file.value.stamp ==> Indexes(lib, w.cache, w.file.value.lines))
  }

  lemma EmptyIndexes(lib: Lib)
    ensures Indexes(lib, EMPTY_CACHE, [])
  {
    assert Entries(lib, []) == [];
  }

  lemma StepInv(lib: Lib, hp: string, w: World, e: Event)
    requires Inv(lib, hp, w)
    ensures Inv(lib, hp, Apply(lib, hp, w, e))
  {
    hide NameIndex, AddrIndex, Entries;
    match e {
      case Tick(_) =>
      case Write(_) =>
      case Remove =>
      case Begin(_) =>
      case Finish(open) =>
        if w.reader.Reading? && !ReadNow(w, w.reader.stat, open).Failed? {
          RebuiltIndexes(lib, w.reader.now, hp, w.reader.stat, ReadNow(w, w.reader.stat, open));
        }
    }
  }

  lemma RebuiltIndexes(lib: Lib, now: Time, hp: string, stat: Option<Stamp>, got: OpenResult)
    ensures var lines := if got.Lines? then got.lines else []; Indexes(lib, Rebuilt(lib, now, hp, stat, lines), lines)
  {
  }

  lemma {:induction false} RunInv(lib: Lib, hp: string, clock: Time, file: Option<File>, events: seq<Event>)
    requires file.Some? ==> file.value.stamp != ZERO_STAMP
    ensures Inv(lib, hp, Run(lib, hp, Start(clock, file), events))
  {
    if events == [] {
      EmptyIndexes(lib);
    } else {
      var front := events[..|events| - 1];
      RunInv(lib, hp, clock, file, front);
      StepInv(lib, hp, Run(lib, hp, Start(clock, file), front), events[|events| - 1]);
    }
  }

  // --- What it gives ---

  /** In every run: when a lookup finds that the stamp of the file is the stored
      one, the maps are the indexes of the file as it is now, provided the last
      rebuild could open the file; if it could not, the maps are empty. */
  lemma MatchIsCurrent(lib: Lib, hp: string, clock: Time, file: Option<File>, events: seq<Event>)
    requires file.Some? ==> file.value.stamp != ZERO_STAMP
    requires var w := Run(lib, hp, Start(clock, file), events); StampMatches(w.cache, hp, StatNow(w, false))
    ensures var w := Run(lib, hp, Start(clock, file), events);
            Indexes(lib, w.cache, if w.didOpen then w.file.value.lines else [])
  {
    RunInv(lib, hp, clock, file, events);
  }

  /** So a match gives the current file exactly when the last rebuild opened the
      file or the current file has no entries. */
  lemma MatchIsCurrentIff(lib: Lib, hp: string, clock: Time, file: Option<File>, events: seq<Event>)
    requires file.Some? ==> file.value.stamp != ZERO_STAMP
    requires var w := Run(lib, hp, Start(clock, file), events); StampMatches(w.cache, hp, StatNow(w, false))
    ensures var w := Run(lib, hp, Start(clock, file), events);
            Indexes(lib, w.cache, w.file.value.lines) <==> w.didOpen || Entries(lib, w.file.value.lines) == []
  {
    MatchIsCurrent(lib, hp, clock, file, events);
    var w := Run(lib, hp, Start(clock, file), events);
    EmptyIndexes(lib);
    SomeIndexes(Entries(lib, w.file.value.lines));
  }

  lemma SomeIndexes(es: seq<Entry>)
    ensures es != [] ==> NameIndex(es) != map[]
  {
    if es != [] {
      assert es[0].key in NameIndex(es);
    }
  }

  /** The state after a refused open of a file with that stamp: the maps are
      empty, and a lookup that sees the stamp leaves them so. */
  ghost predicate Stuck(hp: string, c: Cache, stamp: Stamp)
  {
    c.byName == map[] && c.byAddr == map[] && c.path == hp && c.stamp == stamp
  }

  ghost predicate OnlyLookups(events: seq<Event>)
  {
    forall e | e in events :: e.Tick? || e == Begin(false) || e.Finish?
  }

  /** A refused open by a lookup that has seen the stamp, in any world. */
  lemma RefusedIsStuck(lib: Lib, hp: string, w: World, stamp: Stamp)
    requires w.reader.Reading? && w.reader.stat == Some(stamp)
    ensures Stuck(hp, Apply(lib, hp, w, Finish(Refused)).cache, stamp)
  {
    EmptyIndexes(lib);
  }

  /** The event is the end of a lookup that opens the file, or is refused. */
  predicate Stores(w: World, e: Event)
  {
    e.Finish? && w.reader.Reading? && !ReadNow(w, w.reader.stat, e.open).Failed?
  }

  /** In every reachable world exactly such an event ends that state, by storing
      another stamp or none; and a lookup gets as far as to open the file exactly
      when it does not see the stamp: the file was written or removed, or its stamp
      cannot be had. That it has become readable is not enough. */
  lemma StuckUntil(lib: Lib, hp: string, clock: Time, file: Option<File>, events: seq<Event>, stamp: Stamp, e: Event)
    requires file.Some? ==> file.value.stamp != ZERO_STAMP
    requires stamp != ZERO_STAMP && Stuck(hp, Run(lib, hp, Start(clock, file), events).cache, stamp)
    ensures var w := Run(lib, hp, Start(clock, file), events);
            && (Stuck(hp, Apply(lib, hp, w, e).cache, stamp) <==> !Stores(w, e))
            && (e.Begin? && w.reader == Idle ==>
                  (Apply(lib, hp, w, e).reader.Reading? <==>
                   e.statFails || w.file.None? || w.file.value.stamp != stamp))
  {
    RunInv(lib, hp, clock, file, events);
    EmptyIndexes(lib);
  }

  /** That state, with no lookup under way and the file still there. */
  ghost predicate Resting(hp: string, w: World, file: File)
  {
    Stuck(hp, w.cache, file.stamp) && !w.didOpen && w.reader == Idle && w.file == Some(file)
  }

  lemma RestingStep(lib: Lib, hp: string, w: World, file: File, e: Event)
    requires Resting(hp, w, file) && (e.Tick? || e == Begin(false) || e.Finish?)
    ensures Resting(hp, Apply(lib, hp, w, e), file)
  {
  }

  /** From every reachable world: if a lookup has the stamp of the file and the
      open is then refused, the maps are empty, and stay empty through any number
      of further lookups, although the file may be readable by then: each of them
      finds the stamp unchanged. */
  lemma {:induction false} RefusedSticks(lib: Lib, hp: string, clock: Time, first: Option<File>, before: seq<Event>,
                                         file: File, after: seq<Event>)
    requires var w := Run(lib, hp, Start(clock, first), before);
             w.file == Some(file) && w.reader.Reading? && w.reader.stat == Some(file.stamp)
    requires OnlyLookups(after)
    ensures Resting(hp, Run(lib, hp, Start(clock, first), before + [Finish(Refused)] + after), file)
    decreases |after|
  {
    var w0, start := Start(clock, first), before + [Finish(Refused)];
    if after == [] {
      TakeSnoc(before, Finish(Refused));
      assert start + after == start;
      RefusedIsStuck(lib, hp, Run(lib, hp, w0, before), file.stamp);
    } else {
      hide Resting, Apply;
      var front, e := after[..|after| - 1], after[|after| - 1];
      RefusedSticks(lib, hp, clock, first, before, file, front);
      SplitLast(after);
      Associate(start, front, [e]);
      TakeSnoc(start + front, e);
      assert e in after;
      RestingStep(lib, hp, Run(lib, hp, w0, start + front), file, e);
    }
  }

  /** In every run: maps served without looking at the file had a stamp match or
      a rebuild less than five seconds before. */
  lemma FastIsFresh(lib: Lib, hp: string, clock: Time, file: Option<File>, events: seq<Event>)
    requires file.Some? ==> file.value.stamp != ZERO_STAMP
    requires var w := Run(lib, hp, Start(clock, file), events); Fast(w.cache, w.clock, hp)
    ensures var w := Run(lib, hp, Start(clock, file), events);
            w.checked.Some? && w.checked.value <= w.clock < w.checked.value + CACHE_MAX_AGE
  {
    RunInv(lib, hp, clock, file, events);
  }

  /** The lookup that the event completes: when it started, and whether it ended
      in a failure to open the file. */
  function Completed(hp: string, w: World, e: Event): Option<(Time, bool)>
  {
    match e
    case Begin(statFails) =>
      if w.reader == Idle && (Fast(w.cache, w.clock, hp) || StampMatches(w.cache, hp, StatNow(w, statFails)))
      then Some((w.clock, false)) else None
    case Finish(open) =>
      if w.reader.Reading? then Some((w.reader.now, ReadNow(w, w.reader.stat, open).Failed?)) else None
    case _ => None
  }

  ghost predicate FreshSince(w: World, now: Time)
  {
    w.checked.Some? && now < w.checked.value + CACHE_MAX_AGE
  }

  lemma {:induction false} ReaderHasNoFastPath(lib: Lib, hp: string, clock: Time,
                                               file: Option<File>, events: seq<Event>)
    ensures var w := Run(lib, hp, Start(clock, file), events);
            w.reader.Reading? ==> !Fast(w.cache, w.reader.now, hp)
  {
    if events != [] {
      hide Rebuilt, StampMatches, Fast;
      ReaderHasNoFastPath(lib, hp, clock, file, events[..|events| - 1]);
      NoFastStep(lib, hp, Run(lib, hp, Start(clock, file), events[..|events| - 1]), events[|events| - 1]);
    }
  }

  lemma NoFastStep(lib: Lib, hp: string, w: World, e: Event)
    requires w.reader.Reading? ==> !Fast(w.cache, w.reader.now, hp)
    ensures var w1 := Apply(lib, hp, w, e); w1.reader.Reading? ==> !Fast(w1.cache, w1.reader.now, hp)
  {
    hide Rebuilt, StampMatches;
  }

  /** In every run, of every lookup: what it serves had a stamp match or a rebuild
      less than five seconds before it started, unless it ended in a failed open;
      and then the maps it serves, if they hold anything, are older than that. */
  lemma ServedIsFresh(lib: Lib, hp: string, clock: Time, file: Option<File>, events: seq<Event>, e: Event)
    requires file.Some? ==> file.value.stamp != ZERO_STAMP
    requires Completed(hp, Run(lib, hp, Start(clock, file), events), e).Some?
    ensures var w := Run(lib, hp, Start(clock, file), events);
            var (now, failed) := Completed(hp, w, e).value;
            var served := Apply(lib, hp, w, e);
            && (!failed ==> FreshSince(served, now))
            && (served.cache.byName != map[] ==> (FreshSince(served, now) <==> !failed))
  {
    RunInv(lib, hp, clock, file, events);
    ReaderHasNoFastPath(lib, hp, clock, file, events);
  }
}
