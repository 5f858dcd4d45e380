/** dns/hosts.go: the two indexes that readHosts builds in one pass over the
    file, against a plain scan of its lines. Here a string is a sequence of
    characters, as strings.ToLower sees it. */
module HostsIndex {
  import opened Basics

  /** Library functions: strings.Fields, parseLiteralIP ("" when it fails) and
      the lower-case form of one character. */
  datatype Lib = Lib(fields: string -> seq<string>, parseLiteralIP: string -> string, fold: char -> char)

  /** Folding neither makes nor removes a dot. */
  ghost predicate LibOk(lib: Lib)
  {
    forall c: char :: lib.fold(c) == '.' <==> c == '.'
  }

  function ToLower(lib: Lib, s: string): (r: string)
    ensures |r| == |s| && forall i | 0 <= i < |s| :: r[i] == lib.fold(s[i])
  {
    seq(|s|, i requires 0 <= i < |s| => lib.fold(s[i]))
  }

  /** A name with a dot in it ends with one; a name without is left alone. */
  function AbsDomainName(s: string): string
  {
    if '.' in s && s[|s| - 1] != '.' then s + "." else s
  }

  function Key(lib: Lib, f: string): string
  {
    AbsDomainName(ToLower(lib, f))
  }

  /** A name recorded for an address has the key its field was indexed under. */
  lemma KeyOfName(lib: Lib, f: string)
    requires LibOk(lib) && forall c: char :: lib.fold(lib.fold(c)) == lib.fold(c)
    ensures Key(lib, AbsDomainName(f)) == Key(lib, f)
    ensures Key(lib, Key(lib, f)) == Key(lib, f)
  {
    assert ToLower(lib, ToLower(lib, f)) == ToLower(lib, f);
  }

  // --- The plain scan ---

  /** One name of one line: the line's address, the name as recorded, its key
      and the key of the first name of the line. */
  datatype Entry = Entry(addr: string, name: string, key: string, canonical: string)

  function StripComment(line: string): string
  {
    if line == "" || line[0] == '#' then "" else [line[0]] + StripComment(line[1..])
  }

  function FieldEntry(lib: Lib, addr: string, f: seq<string>, i: nat): Entry
    requires 0 < i < |f|
  {
    Entry(addr, AbsDomainName(f[i]), Key(lib, f[i]), Key(lib, f[1]))
  }

  /** The entries of the fields 1..n-1 of a line. */
  function FieldEntries(lib: Lib, addr: string, f: seq<string>, n: nat): seq<Entry>
    requires 0 < n <= |f|
  {
    if n == 1 then [] else FieldEntries(lib, addr, f, n - 1) + [FieldEntry(lib, addr, f, n - 1)]
  }

  function LineEntries(lib: Lib, line: string): seq<Entry>
  {
    var f := lib.fields(StripComment(line));
    if |f| < 2 || lib.parseLiteralIP(f[0]) == "" then []
    else FieldEntries(lib, lib.parseLiteralIP(f[0]), f, |f|)
  }

  /** Every mention of a name, in file order. */
  function Entries(lib: Lib, lines: seq<string>): seq<Entry>
  {
    if lines == [] then [] else Entries(lib, lines[..|lines| - 1]) + LineEntries(lib, lines[|lines| - 1])
  }

  /** The addresses listed for key k, in file order. */
  function AddrsOf(es: seq<Entry>, k: string): seq<string>
  {
    if es == [] then []
    else
      var e := es[|es| - 1];
      AddrsOf(es[..|es| - 1], k) + if e.key == k then [e.addr] else []
  }

  /** The names listed for address a, in file order. */
  function NamesOf(es: seq<Entry>, a: string): seq<string>
  {
    if es == [] then []
    else
      var e := es[|es| - 1];
      NamesOf(es[..|es| - 1], a) + if e.addr == a then [e.name] else []
  }

  /** The canonical name of the first mention of k. */
  function CanonicalOf(es: seq<Entry>, k: string): string
  {
    if es == [] then "" else if es[0].key == k then es[0].canonical else CanonicalOf(es[1..], k)
  }

  function Keys(es: seq<Entry>): set<string>
  {
    set i | 0 <= i < |es| :: es[i].key
  }

  function Addrs(es: seq<Entry>): set<string>
  {
    set i | 0 <= i < |es| :: es[i].addr
  }

  datatype ByName = ByName(addrs: seq<string>, canonicalName: string)

  /** The two indexes as the plain scan defines them. */
  function NameIndex(es: seq<Entry>): map<string, ByName>
  {
    map k | k in Keys(es) :: ByName(AddrsOf(es, k), CanonicalOf(es, k))
  }

  function AddrIndex(es: seq<Entry>): map<string, seq<string>>
  {
    map a | a in Addrs(es) :: NamesOf(es, a)
  }

  // --- The one-pass construction ---

  lemma {:induction false} CanonicalSnoc(es: seq<Entry>, e: Entry, k: string)
    ensures CanonicalOf(es + [e], k) ==
            if k in Keys(es) then CanonicalOf(es, k) else if e.key == k then e.canonical else ""
  {
    if es != [] {
      assert (es + [e])[1..] == es[1..] + [e];
      CanonicalSnoc(es[1..], e, k);
      assert k in Keys(es) <==> es[0].key == k || k in Keys(es[1..]) by {
        assert forall i | 0 < i < |es| :: es[i] == es[1..][i - 1];
        assert forall i | 0 <= i < |es| - 1 :: es[1..][i] == es[i + 1];
        if k in Keys(es) {
          var i :| 0 <= i < |es| && es[i].key == k;
          if i > 0 {
            assert es[1..][i - 1].key == k;
          }
        }
        if k in Keys(es[1..]) {
          var i :| 0 <= i < |es| - 1 && es[1..][i].key == k;
          assert es[i + 1].key == k;
        }
      }
    }
  }

  lemma KeysSnoc(es: seq<Entry>, e: Entry)
    ensures Keys(es + [e]) == Keys(es) + {e.key}
    ensures Addrs(es + [e]) == Addrs(es) + {e.addr}
  {
    var u := es + [e];
    assert forall i | 0 <= i < |es| :: u[i] == es[i];
    assert u[|es|] == e;
    forall k | k in Keys(es)
      ensures k in Keys(u)
    {
      var i :| 0 <= i < |es| && es[i].key == k;
      assert u[i].key == k;
    }
    forall a | a in Addrs(es)
      ensures a in Addrs(u)
    {
      var i :| 0 <= i < |es| && es[i].addr == a;
      assert u[i].addr == a;
    }
  }

  lemma {:induction false} AbsentKey(es: seq<Entry>, k: string)
    requires k !in Keys(es)
    ensures AddrsOf(es, k) == []
  {
    if es != [] {
      SplitLast(es);
      KeysSnoc(es[..|es| - 1], es[|es| - 1]);
      AbsentKey(es[..|es| - 1], k);
    }
  }

  lemma {:induction false} AbsentAddr(es: seq<Entry>, a: string)
    requires a !in Addrs(es)
    ensures NamesOf(es, a) == []
  {
    if es != [] {
      SplitLast(es);
      KeysSnoc(es[..|es| - 1], es[|es| - 1]);
      AbsentAddr(es[..|es| - 1], a);
    }
  }

  lemma ScanSnoc(es: seq<Entry>, e: Entry, x: string)
    ensures AddrsOf(es + [e], x) == if e.key == x then AddrsOf(es, x) + [e.addr] else AddrsOf(es, x)
    ensures NamesOf(es + [e], x) == if e.addr == x then NamesOf(es, x) + [e.name] else NamesOf(es, x)
  {
    TakeSnoc(es, e);
  }

  /** What one mention does to the entry of its key. */
  function NameAdd(hs: map<string, ByName>, e: Entry): map<string, ByName>
  {
    if e.key in hs then hs[e.key := ByName(hs[e.key].addrs + [e.addr], hs[e.key].canonicalName)]
    else hs[e.key := ByName([e.addr], e.canonical)]
  }

  lemma NameEntrySnoc(es: seq<Entry>, e: Entry, k: string)
    ensures AddrsOf(es + [e], k) ==
            if k != e.key then AddrsOf(es, k) else if k in Keys(es) then AddrsOf(es, k) + [e.addr] else [e.addr]
    ensures k in Keys(es) || k == e.key ==>
            CanonicalOf(es + [e], k) == if k in Keys(es) then CanonicalOf(es, k) else e.canonical
  {
    ScanSnoc(es, e, k);
    CanonicalSnoc(es, e, k);
    if k !in Keys(es) {
      AbsentKey(es, k);
    }
  }

  lemma NameIndexSnoc(es: seq<Entry>, e: Entry)
    ensures NameIndex(es + [e]) == NameAdd(NameIndex(es), e)
  {
    hide AddrsOf, CanonicalOf, Keys, Addrs;
    var left, right := NameIndex(es + [e]), NameAdd(NameIndex(es), e);
    KeysSnoc(es, e);
    assert left.Keys == right.Keys;
    forall k | k in left
      ensures left[k] == right[k]
    {
      NameEntrySnoc(es, e, k);
    }
  }

  function AddrAdd(is0: map<string, seq<string>>, e: Entry): map<string, seq<string>>
  {
    is0[e.addr := (if e.addr in is0 then is0[e.addr] else []) + [e.name]]
  }

  lemma AddrIndexSnoc(es: seq<Entry>, e: Entry)
    ensures AddrIndex(es + [e]) == AddrAdd(AddrIndex(es), e)
  {
    hide NamesOf, AddrsOf, Keys, Addrs;
    var left, right := AddrIndex(es + [e]), AddrAdd(AddrIndex(es), e);
    KeysSnoc(es, e);
    assert left.Keys == right.Keys;
    forall a | a in left
      ensures left[a] == right[a]
    {
      ScanSnoc(es, e, a);
      if a !in Addrs(es) {
        AbsentAddr(es, a);
      }
    }
  }

  /** One more field of a line is one more mention. */
  lemma FieldStep(lib: Lib, addr: string, f: seq<string>, i: nat, es: seq<Entry>)
    requires 0 < i < |f|
    ensures var (done, more) := (es + FieldEntries(lib, addr, f, i), es + FieldEntries(lib, addr, f, i + 1));
            var e := FieldEntry(lib, addr, f, i);
            NameIndex(more) == NameAdd(NameIndex(done), e) && AddrIndex(more) == AddrAdd(AddrIndex(done), e)
  {
    hide NameIndex, AddrIndex, NameAdd, AddrAdd, FieldEntry;
    var e := FieldEntry(lib, addr, f, i);
    var done := es + FieldEntries(lib, addr, f, i);
    NameIndexSnoc(done, e);
    AddrIndexSnoc(done, e);
    Associate(es, FieldEntries(lib, addr, f, i), [e]);
  }

  /** One line of the file: its names are added to both indexes. */
  method AddLine(lib: Lib, line: string, ghost es: seq<Entry>, hs0: map<string, ByName>, is0: map<string, seq<string>>)
      returns (hs: map<string, ByName>, is': map<string, seq<string>>)
    requires hs0 == NameIndex(es) && is0 == AddrIndex(es)
    ensures hs == NameIndex(es + LineEntries(lib, line)) && is' == AddrIndex(es + LineEntries(lib, line))
  {
    hide NameIndex, AddrIndex, Key;
    hs, is' := hs0, is0;
    assert es + [] == es;
    var f := lib.fields(StripComment(line));
    if |f| < 2 {
      return;
    }
    var addr := lib.parseLiteralIP(f[0]);
    if addr == "" {
      return;
    }
    hs, is' := AddFields(lib, addr, f, es, hs0, is0);
  }

  method AddFields(lib: Lib, addr: string, f: seq<string>, ghost es: seq<Entry>,
                   hs0: map<string, ByName>, is0: map<string, seq<string>>)
      returns (hs: map<string, ByName>, is': map<string, seq<string>>)
    requires |f| >= 2 && hs0 == NameIndex(es) && is0 == AddrIndex(es)
    ensures hs == NameIndex(es + FieldEntries(lib, addr, f, |f|)) &&
            is' == AddrIndex(es + FieldEntries(lib, addr, f, |f|))
  {
    hide NameIndex, AddrIndex, FieldEntries, ToLower, AbsDomainName;
    hs, is' := hs0, is0;
    assert FieldEntries(lib, addr, f, 1) == [] by { NoFields(lib, addr, f); }
    assert es + [] == es;
    var canonical := "";
    for i := 1 to |f|
      invariant hs == NameIndex(es + FieldEntries(lib, addr, f, i))
      invariant is' == AddrIndex(es + FieldEntries(lib, addr, f, i))
      invariant i > 1 ==> canonical == Key(lib, f[1])
    {
      var name := AbsDomainName(f[i]);
      var key := AbsDomainName(ToLower(lib, f[i]));
      if i == 1 {
        canonical := key;
      }
      FieldStep(lib, addr, f, i, es);
      is' := is'[addr := (if addr in is' then is'[addr] else []) + [name]];
      if key in hs {
        var v := hs[key];
        hs := hs[key := ByName(v.addrs + [addr], v.canonicalName)];
      } else {
        hs := hs[key := ByName([addr], canonical)];
      }
    }
  }

  lemma NoFields(lib: Lib, addr: string, f: seq<string>)
    requires f != []
    ensures FieldEntries(lib, addr, f, 1) == []
  {
  }

  method BuildIndexes(lib: Lib, lines: seq<string>) returns (hs: map<string, ByName>, is': map<string, seq<string>>)
    ensures hs == NameIndex(Entries(lib, lines)) && is' == AddrIndex(Entries(lib, lines))
  {
    hs, is' := map[], map[];
    for n := 0 to |lines|
      invariant hs == NameIndex(Entries(lib, lines[..n])) && is' == AddrIndex(Entries(lib, lines[..n]))
    {
      hs, is' := AddLine(lib, lines[n], Entries(lib, lines[..n]), hs, is');
      assert lines[..n + 1][..n] == lines[..n];
    }
    assert lines[..|lines|] == lines;
  }

  // --- The two indexes agree ---

  function Count<T>(s: seq<T>, p: T -> bool): nat
  {
    if s == [] then 0 else Count(s[..|s| - 1], p) + if p(s[|s| - 1]) then 1 else 0
  }

  ghost predicate Keyed(lib: Lib, es: seq<Entry>)
  {
    forall i | 0 <= i < |es| :: es[i].key == Key(lib, es[i].name)
  }

  lemma {:induction false} FieldsKeyed(lib: Lib, addr: string, f: seq<string>, n: nat)
    requires LibOk(lib) && (forall c: char :: lib.fold(lib.fold(c)) == lib.fold(c)) && 0 < n <= |f|
    ensures Keyed(lib, FieldEntries(lib, addr, f, n))
  {
    if n > 1 {
      FieldsKeyed(lib, addr, f, n - 1);
      KeyOfName(lib, f[n - 1]);
    }
  }

  lemma {:induction false} EntriesKeyed(lib: Lib, lines: seq<string>)
    requires LibOk(lib) && forall c: char :: lib.fold(lib.fold(c)) == lib.fold(c)
    ensures Keyed(lib, Entries(lib, lines))
  {
    if lines != [] {
      EntriesKeyed(lib, lines[..|lines| - 1]);
      var f := lib.fields(StripComment(lines[|lines| - 1]));
      if |f| >= 2 {
        FieldsKeyed(lib, lib.parseLiteralIP(f[0]), f, |f|);
      }
    }
  }

  function Mentions(a: string, k: string): Entry -> bool
  {
    (e: Entry) => e.addr == a && e.key == k
  }

  lemma {:induction false} AddrCount(es: seq<Entry>, a: string, k: string)
    ensures multiset(AddrsOf(es, k))[a] == Count(es, Mentions(a, k))
  {
    if es != [] {
      AddrCount(es[..|es| - 1], a, k);
    }
  }

  function HasKey(lib: Lib, k: string): string -> bool
  {
    (n: string) => Key(lib, n) == k
  }

  lemma {:induction false} NameCount(lib: Lib, es: seq<Entry>, a: string, k: string)
    requires Keyed(lib, es)
    ensures Count(NamesOf(es, a), HasKey(lib, k)) == Count(es, Mentions(a, k))
  {
    if es != [] {
      var e := es[|es| - 1];
      NameCount(lib, es[..|es| - 1], a, k);
      SplitLast(es);
      ScanSnoc(es[..|es| - 1], e, a);
      TakeSnoc(NamesOf(es[..|es| - 1], a), e.name);
    }
  }

  function AddrList(hs: map<string, ByName>, k: string): seq<string>
  {
    if k in hs then hs[k].addrs else []
  }

  function NameList(is': map<string, seq<string>>, a: string): seq<string>
  {
    if a in is' then is'[a] else []
  }

  /** For every address a and key k, the number of times a is listed for k is
      the number of names listed for a whose key is k, and both are the number
      of times a line of the file gives a a name with key k. */
  lemma IndexesAgree(lib: Lib, lines: seq<string>, a: string, k: string)
    requires LibOk(lib) && forall c: char :: lib.fold(lib.fold(c)) == lib.fold(c)
    ensures var es := Entries(lib, lines);
            && multiset(AddrList(NameIndex(es), k))[a] == Count(es, Mentions(a, k))
            && Count(NameList(AddrIndex(es), a), HasKey(lib, k)) == Count(es, Mentions(a, k))
  {
    var es := Entries(lib, lines);
    EntriesKeyed(lib, lines);
    AddrCount(es, a, k);
    NameCount(lib, es, a, k);
    if k !in Keys(es) {
      AbsentKey(es, k);
    }
    if a !in Addrs(es) {
      AbsentAddr(es, a);
    }
  }

  lemma {:induction false} CountPositive<T>(s: seq<T>, p: T -> bool)
    ensures Count(s, p) > 0 <==> exists i | 0 <= i < |s| :: p(s[i])
  {
    if s != [] {
      CountPositive(s[..|s| - 1], p);
    }
  }

  /** Looking a host up lists an address exactly when looking that address up
      lists a name that folds to the host. */
  lemma LookupsAgree(lib: Lib, lines: seq<string>, a: string, host: string)
    requires LibOk(lib) && forall c: char :: lib.fold(lib.fold(c)) == lib.fold(c)
    ensures var es := Entries(lib, lines);
            a in AddrList(NameIndex(es), Key(lib, host)) <==>
            exists n | n in NameList(AddrIndex(es), a) :: Key(lib, n) == Key(lib, host)
  {
    var es := Entries(lib, lines);
    var k := Key(lib, host);
    var names := NameList(AddrIndex(es), a);
    IndexesAgree(lib, lines, a, k);
    CountPositive(names, HasKey(lib, k));
    assert a in AddrList(NameIndex(es), k) <==> a in multiset(AddrList(NameIndex(es), k));
    if i :| 0 <= i < |names| && HasKey(lib, k)(names[i]) {
      assert names[i] in names;
    }
  }

  // --- What the lines of the file say ---

  /** A comment starts at the first '#'. */
  lemma {:induction false} StripCommentIs(line: string, i: nat)
    ensures '#' !in line ==> StripComment(line) == line
    ensures i < |line| && line[i] == '#' && '#' !in line[..i] ==> StripComment(line) == line[..i]
  {
    if line != "" && line[0] != '#' {
      StripCommentIs(line[1..], if i > 0 then i - 1 else 0);
      if 0 < i < |line| {
        assert line[..i] == [line[0]] + line[1..][..i - 1];
      }
    }
  }

  /** Two names have one key exactly when they fold to the same text, or to texts
      that differ in the final dot of a name with another dot in it. */
  lemma KeySame(lib: Lib, f: string, g: string)
    ensures var (a, b) := (ToLower(lib, f), ToLower(lib, g));
            Key(lib, f) == Key(lib, g) <==>
            || a == b
            || (b == a + "." && '.' in a && a[|a| - 1] != '.')
            || (a == b + "." && '.' in b && b[|b| - 1] != '.')
  {
    var (a, b) := (ToLower(lib, f), ToLower(lib, g));
    Undotted(a, b);
  }

  lemma Undotted(a: string, b: string)
    ensures a + "." == b + "." <==> a == b
  {
    assert (a + ".")[..|a|] == a && (b + ".")[..|b|] == b;
  }

  /** Field i of the line is a name with key k, given to address a. */
  ghost predicate Names(lib: Lib, line: string, i: nat, a: string, k: string)
  {
    var f := lib.fields(StripComment(line));
    0 < i < |f| && lib.parseLiteralIP(f[0]) == a && a != "" && Key(lib, f[i]) == k
  }

  lemma {:induction false} FieldEntriesAre(lib: Lib, addr: string, f: seq<string>, n: nat)
    requires 0 < n <= |f|
    ensures |FieldEntries(lib, addr, f, n)| == n - 1
    ensures forall j | 0 <= j < n - 1 :: FieldEntries(lib, addr, f, n)[j] == FieldEntry(lib, addr, f, j + 1)
  {
    if n > 1 {
      FieldEntriesAre(lib, addr, f, n - 1);
    }
  }

  /** Field i of the line makes the entry: the address of field 0, the name with a
      final dot if it has another, its key, and the key of the first name. */
  ghost predicate Makes(lib: Lib, line: string, i: nat, e: Entry)
  {
    var f := lib.fields(StripComment(line));
    && 0 < i < |f| && lib.parseLiteralIP(f[0]) == e.addr && e.addr != ""
    && e.name == (if '.' in f[i] && f[i][|f[i]| - 1] != '.' then f[i] + "." else f[i])
    && e.key == Key(lib, f[i]) && e.canonical == Key(lib, f[1])
  }

  lemma LineEntryIff(lib: Lib, line: string, e: Entry)
    ensures e in LineEntries(lib, line) <==> exists i: nat :: Makes(lib, line, i, e)
  {
    hide Key;
    var f, es := lib.fields(StripComment(line)), LineEntries(lib, line);
    if |f| >= 2 && lib.parseLiteralIP(f[0]) != "" {
      FieldEntriesAre(lib, lib.parseLiteralIP(f[0]), f, |f|);
      if e in es {
        var j :| 0 <= j < |es| && es[j] == e;
        assert Makes(lib, line, j + 1, e);
      }
      if i: nat :| Makes(lib, line, i, e) {
        assert es[i - 1] == e;
      }
    }
  }

  /** The entries are those that the fields of the lines make, and no others. */
  lemma {:induction false} EntryIff(lib: Lib, lines: seq<string>, e: Entry)
    ensures e in Entries(lib, lines) <==> exists l, i: nat :: l in lines && Makes(lib, l, i, e)
  {
    hide Makes, LineEntries;
    if lines != [] {
      var front, last := lines[..|lines| - 1], lines[|lines| - 1];
      EntryIff(lib, front, e);
      LineEntryIff(lib, last, e);
      SplitLast(lines);
      assert forall l :: l in lines <==> l in front || l == last;
    }
  }

  lemma NamesMakes(lib: Lib, line: string, i: nat, a: string, k: string) returns (e: Entry)
    requires Names(lib, line, i, a, k)
    ensures e.addr == a && e.key == k && Makes(lib, line, i, e)
  {
    e := FieldEntry(lib, a, lib.fields(StripComment(line)), i);
  }

  lemma {:induction false} AddrsMention(es: seq<Entry>, a: string, k: string)
    ensures a in AddrsOf(es, k) <==> exists e | e in es :: e.addr == a && e.key == k
  {
    if es != [] {
      SplitLast(es);
      AddrsMention(es[..|es| - 1], a, k);
      assert forall e :: e in es <==> e in es[..|es| - 1] || e == es[|es| - 1];
    }
  }

  lemma {:induction false} NamesMention(es: seq<Entry>, a: string, n: string)
    ensures n in NamesOf(es, a) <==> exists e | e in es :: e.addr == a && e.name == n
  {
    if es != [] {
      SplitLast(es);
      NamesMention(es[..|es| - 1], a, n);
      assert forall e :: e in es <==> e in es[..|es| - 1] || e == es[|es| - 1];
    }
  }

  function KeyIs(k: string): Entry -> bool
  {
    (e: Entry) => e.key == k
  }

  function AddrIs(a: string): Entry -> bool
  {
    (e: Entry) => e.addr == a
  }

  /** Both lists are in file order, with repetitions. */
  lemma {:induction false} InFileOrder(es: seq<Entry>, k: string, a: string)
    ensures var f := Filter(es, KeyIs(k));
            |AddrsOf(es, k)| == |f| && forall i :: 0 <= i < |f| ==> AddrsOf(es, k)[i] == f[i].addr
    ensures var f := Filter(es, AddrIs(a));
            |NamesOf(es, a)| == |f| && forall i :: 0 <= i < |f| ==> NamesOf(es, a)[i] == f[i].name
  {
    if es != [] {
      var front, e := es[..|es| - 1], es[|es| - 1];
      InFileOrder(front, k, a);
      SplitLast(es);
      FilterLast(front, e, KeyIs(k));
      FilterLast(front, e, AddrIs(a));
    }
  }

  /** Looking a host up lists exactly the addresses that some line of the file
      gives to a name with its key. */
  lemma HostFound(lib: Lib, lines: seq<string>, host: string, a: string)
    ensures a in AddrList(NameIndex(Entries(lib, lines)), Key(lib, host)) <==>
            exists l, i: nat :: l in lines && Names(lib, l, i, a, Key(lib, host))
  {
    hide Entries, Key, StripComment;
    var es, k := Entries(lib, lines), Key(lib, host);
    AddrsMention(es, a, k);
    if k !in Keys(es) {
      AbsentKey(es, k);
    }
    if e :| e in es && e.addr == a && e.key == k {
      EntryIff(lib, lines, e);
      var l, i: nat :| l in lines && Makes(lib, l, i, e);
      assert Names(lib, l, i, a, k);
    }
    if l, i: nat :| l in lines && Names(lib, l, i, a, k) {
      var e := NamesMakes(lib, l, i, a, k);
      EntryIff(lib, lines, e);
    }
  }

  /** Looking an address up lists exactly the names that some line gives to it, as
      they are written or with a final dot. */
  lemma AddrFound(lib: Lib, lines: seq<string>, a: string, n: string)
    ensures n in NameList(AddrIndex(Entries(lib, lines)), a) <==>
            exists e: Entry, l, i: nat :: l in lines && Makes(lib, l, i, e) && e.addr == a && e.name == n
  {
    hide Entries, Makes;
    var es := Entries(lib, lines);
    NamesMention(es, a, n);
    if a !in Addrs(es) {
      AbsentAddr(es, a);
    }
    forall e: Entry | e.addr == a && e.name == n
      ensures e in es <==> exists l, i: nat :: l in lines && Makes(lib, l, i, e)
    {
      EntryIff(lib, lines, e);
    }
  }

  lemma {:induction false} EntriesConcat(lib: Lib, a: seq<string>, b: seq<string>)
    ensures Entries(lib, a + b) == Entries(lib, a) + Entries(lib, b)
    decreases |b|
  {
    if b == [] {
      assert a + b == a;
    } else {
      var front, last := b[..|b| - 1], b[|b| - 1];
      assert (a + b)[..|a + b| - 1] == a + front;
      EntriesConcat(lib, a, front);
      Associate(Entries(lib, a), Entries(lib, front), LineEntries(lib, last));
    }
  }

  lemma {:induction false} CanonicalConcat(a: seq<Entry>, b: seq<Entry>, k: string)
    requires forall e | e in a :: e.key != k
    ensures CanonicalOf(a + b, k) == CanonicalOf(b, k)
  {
    if a == [] {
      assert a + b == b;
    } else {
      assert a[0] in a && (a + b)[1..] == a[1..] + b;
      CanonicalConcat(a[1..], b, k);
    }
  }

  lemma {:induction false} CanonicalShared(es: seq<Entry>, more: seq<Entry>, k: string, c: string)
    requires (forall e | e in es :: e.canonical == c) && exists e | e in es :: e.key == k
    ensures CanonicalOf(es + more, k) == c
  {
    assert es[0] in es && (es + more)[1..] == es[1..] + more;
    if es[0].key != k {
      assert forall e | e in es :: e == es[0] || e in es[1..];
      CanonicalShared(es[1..], more, k, c);
    }
  }

  lemma EntriesCut(lib: Lib, lines: seq<string>, n: nat)
    requires n < |lines|
    ensures Entries(lib, lines) ==
            Entries(lib, lines[..n]) + (LineEntries(lib, lines[n]) + Entries(lib, lines[n + 1..]))
  {
    hide LineEntries;
    assert lines == lines[..n] + ([lines[n]] + lines[n + 1..]);
    EntriesConcat(lib, lines[..n], [lines[n]] + lines[n + 1..]);
    EntriesConcat(lib, [lines[n]], lines[n + 1..]);
    assert [lines[n]][..0] == [] && Entries(lib, [lines[n]]) == [] + LineEntries(lib, lines[n]);
  }

  lemma LineCanonical(lib: Lib, line: string, i: nat, a: string, k: string)
    requires Names(lib, line, i, a, k)
    ensures var f := lib.fields(StripComment(line));
            |f| >= 2 && forall e | e in LineEntries(lib, line) :: e.canonical == Key(lib, f[1])
    ensures exists e | e in LineEntries(lib, line) :: e.key == k
  {
    hide Key, LineEntries;
    forall e | e in LineEntries(lib, line)
      ensures e.canonical == Key(lib, lib.fields(StripComment(line))[1])
    {
      LineEntryIff(lib, line, e);
    }
    var e := NamesMakes(lib, line, i, a, k);
    LineEntryIff(lib, line, e);
  }

  lemma NotMentioned(lib: Lib, lines: seq<string>, k: string)
    requires forall l, j: nat, b | l in lines :: !Names(lib, l, j, b, k)
    ensures forall e | e in Entries(lib, lines) :: e.key != k
  {
    hide Entries, StripComment, Key;
    forall e | e in Entries(lib, lines)
      ensures e.key != k
    {
      EntryIff(lib, lines, e);
      var l, i: nat :| l in lines && Makes(lib, l, i, e);
      assert !Names(lib, l, i, e.addr, k);
    }
  }

  /** The canonical name found with a host is the first name of the first line
      that mentions the host. */
  lemma CanonicalIsFirst(lib: Lib, lines: seq<string>, host: string, n: nat, i: nat, a: string)
    requires n < |lines| && Names(lib, lines[n], i, a, Key(lib, host))
    requires forall l, j: nat, b | l in lines[..n] :: !Names(lib, l, j, b, Key(lib, host))
    ensures var (hs, f) := (NameIndex(Entries(lib, lines)), lib.fields(StripComment(lines[n])));
            && Key(lib, host) in hs && |f| >= 2
            && hs[Key(lib, host)].canonicalName == Key(lib, f[1])
  {
    hide Entries, LineEntries, Key, Names, AddrsOf, CanonicalOf, StripComment;
    var k, f := Key(lib, host), lib.fields(StripComment(lines[n]));
    var before, line, after := Entries(lib, lines[..n]), LineEntries(lib, lines[n]), Entries(lib, lines[n + 1..]);
    EntriesCut(lib, lines, n);
    NotMentioned(lib, lines[..n], k);
    LineCanonical(lib, lines[n], i, a, k);
    CanonicalShared(line, after, k, Key(lib, f[1]));
    CanonicalConcat(before, line + after, k);
    InKeys(before + (line + after), line, k);
  }

  lemma InKeys(es: seq<Entry>, part: seq<Entry>, k: string)
    requires (forall e | e in part :: e in es) && exists e | e in part :: e.key == k
    ensures k in Keys(es)
  {
    var e :| e in part && e.key == k;
    var j :| 0 <= j < |es| && es[j] == e;
    assert es[j].key == k;
  }
}
