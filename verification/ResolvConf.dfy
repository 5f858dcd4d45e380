/** dns/dnsconfig.go and dns/dnsconfig_unix.go: the resolver configuration and
    how it is read from the lines of resolv.conf. */
module ResolvConf {
  import opened Basics
  import opened Text

  const DEFAULT_NS: seq<string> := ["127.0.0.1:53", "[::1]:53"]
  const SECOND: int := 1_000_000_000
  const TWO_32: int := 0x1_0000_0000

  /** Library functions: strings.Fields, whether netip.ParseAddr succeeds,
      net.JoinHostPort(_, "53"), the number strconv.Atoi returns (also when it
      reports an error), and the host name if it can be had. */
  datatype Lib = Lib(
    fields: string -> seq<string>,
    isAddr: string -> bool,
    joinPort: string -> string,
    atoi: string -> int,
    hostname: Option<string>)

  /** What the options of a file decide. */
  datatype Options = Options(
    ndots: int,
    timeout: int,
    attempts: int,
    rotate: bool,
    unknownOpt: bool,
    singleRequest: bool,
    useTCP: bool,
    trustAD: bool,
    noReload: bool)

  /** Everything that a file decides. */
  datatype Settings = Settings(servers: seq<string>, search: seq<string>, lookup: seq<string>, options: Options)

  const DEFAULT_OPTIONS := Options(1, 5 * SECOND, 2, false, false, false, false, false, false)
  const DEFAULTS := Settings([], [], [], DEFAULT_OPTIONS)

  function EnsureRooted(s: string): (r: string)
    ensures EndsWithDot(r)
  {
    if EndsWithDot(s) then s else s + "."
  }

  /** It is the one text that ends with a dot and is s up to that dot. */
  lemma EnsureRootedIs(s: string, r: string)
    ensures r == EnsureRooted(s) <==> EndsWithDot(r) && Unrooted(r) == Unrooted(s)
  {
    UnrootedAbsolute(s);
    if EndsWithDot(r) {
      SplitLast(r);
    }
    if EndsWithDot(s) {
      SplitLast(s);
    }
  }

  /** The index of the first dot, or |s|. */
  function IndexDot(s: string): (i: nat)
    ensures i <= |s| && (i < |s| ==> s[i] == '.') && '.' !in s[..i]
  {
    if s == "" || s[0] == '.' then 0
    else
      var i := IndexDot(s[1..]);
      assert s[..i + 1] == [s[0]] + s[1..][..i];
      i + 1
  }

  function DefaultSearch(lib: Lib): seq<string>
  {
    match lib.hostname
    case None => []
    case Some(hn) => if IndexDot(hn) < |hn| - 1 then [EnsureRooted(hn[IndexDot(hn) + 1..])] else []
  }

  /** An int64 product. */
  function Wrap64(x: int): int
  {
    (x + 0x8000_0000_0000_0000) % 0x1_0000_0000_0000_0000 - 0x8000_0000_0000_0000
  }

  function Clamp(lo: int, n: int, hi: int): (r: int)
    requires lo <= hi
    ensures lo <= r <= hi
    ensures (n <= r || r == hi) && (r <= n || r == lo)
  {
    if n < lo then lo else if n > hi then hi else n
  }

  function AtLeastOne(n: int): (r: int)
    ensures r >= 1 && r >= n && (r == n || r == 1)
  {
    if n < 1 then 1 else n
  }

  predicate HasPrefix(s: string, prefix: string)
  {
    |prefix| <= |s| && s[..|prefix|] == prefix
  }

  /** The rooted names of a search line, without the root. */
  function SearchNames(f: seq<string>): (r: seq<string>)
    ensures forall s | s in r :: EndsWithDot(s) && s != "."
  {
    if f == [] then []
    else
      var name := EnsureRooted(f[|f| - 1]);
      SearchNames(f[..|f| - 1]) + if name == "." then [] else [name]
  }

  // --- What one option and one line change ---

  /** The cases of the option switch, in its order. */
  datatype Opt = NDots(arg: string) | Timeout(arg: string) | Attempts(arg: string)
    | Rotate | SingleRequest | UseTCP | TrustAD | Edns0 | NoReload | Unknown

  function ParseOption(s: string): Opt
  {
    if HasPrefix(s, "ndots:") then NDots(s[6..])
    else if HasPrefix(s, "timeout:") then Timeout(s[8..])
    else if HasPrefix(s, "attempts:") then Attempts(s[9..])
    else if s == "rotate" then Rotate
    else if s == "single-request" || s == "single-request-reopen" then SingleRequest
    else if s == "use-vc" || s == "usevc" || s == "tcp" then UseTCP
    else if s == "trust-ad" then TrustAD
    else if s == "edns0" then Edns0
    else if s == "no-reload" then NoReload
    else Unknown
  }

  function OptionStep(lib: Lib, c: Options, o: Opt): Options
  {
    match o
    case NDots(n) => c.(ndots := Clamp(0, lib.atoi(n), 15))
    case Timeout(n) => c.(timeout := Wrap64(AtLeastOne(lib.atoi(n)) * SECOND))
    case Attempts(n) => c.(attempts := AtLeastOne(lib.atoi(n)))
    case Rotate => c.(rotate := true)
    case SingleRequest => c.(singleRequest := true)
    case UseTCP => c.(useTCP := true)
    case TrustAD => c.(trustAD := true)
    case Edns0 => c
    case NoReload => c.(noReload := true)
    case Unknown => c.(unknownOpt := true)
  }

  function OptionsStep(lib: Lib, c: Options, options: seq<string>): Options
  {
    if options == [] then c
    else OptionStep(lib, OptionsStep(lib, c, options[..|options| - 1]), ParseOption(options[|options| - 1]))
  }

  function FieldsStep(lib: Lib, c: Settings, f: seq<string>): Settings
    requires f != []
  {
    if f[0] == "nameserver" then
      if |f| > 1 && |c.servers| < 3 && lib.isAddr(f[1]) then c.(servers := c.servers + [lib.joinPort(f[1])]) else c
    else if f[0] == "domain" then
      if |f| > 1 then c.(search := [EnsureRooted(f[1])]) else c
    else if f[0] == "search" then c.(search := SearchNames(f[1..]))
    else if f[0] == "options" then c.(options := OptionsStep(lib, c.options, f[1..]))
    else if f[0] == "lookup" then c.(lookup := f[1..])
    else c.(options := c.options.(unknownOpt := true))
  }

  predicate IsComment(line: string)
  {
    line != "" && (line[0] == ';' || line[0] == '#')
  }

  function LineFields(lib: Lib, line: string): seq<string>
  {
    if IsComment(line) then [] else lib.fields(line)
  }

  function LinesStep(lib: Lib, c: Settings, lines: seq<string>): Settings
  {
    if lines == [] then c
    else
      var d := LinesStep(lib, c, lines[..|lines| - 1]);
      var f := LineFields(lib, lines[|lines| - 1]);
      if f == [] then d else FieldsStep(lib, d, f)
  }

  function WithDefaults(lib: Lib, c: Settings): Settings
  {
    c.(servers := if c.servers == [] then DEFAULT_NS else c.servers,
       search := if c.search == [] then DefaultSearch(lib) else c.search)
  }

  /** `lines` is None when the file cannot be opened or its state not be read. */
  function ReadSettings(lib: Lib, lines: Option<seq<string>>): Settings
  {
    WithDefaults(lib, if lines.None? then DEFAULTS else LinesStep(lib, DEFAULTS, lines.value))
  }

  // --- The configuration object ---

  class DnsConfig {
    var servers: seq<string>
    var search: seq<string>
    var ndots: int
    var timeout: int
    var attempts: int
    var rotate: bool
    var unknownOpt: bool
    var lookup: seq<string>
    var mtime: int
    var soffset: uint32
    var singleRequest: bool
    var useTCP: bool
    var trustAD: bool
    var noReload: bool

    function Opts(): Options
      reads this
    {
      Options(ndots, timeout, attempts, rotate, unknownOpt, singleRequest, useTCP, trustAD, noReload)
    }

    function View(): Settings
      reads this
    {
      Settings(servers, search, lookup, Opts())
    }

    constructor ()
      ensures View() == DEFAULTS && mtime == 0 && soffset == 0
    {
      servers, search, lookup := [], [], [];
      ndots, timeout, attempts := 1, 5 * SECOND, 2;
      rotate, unknownOpt, singleRequest, useTCP, trustAD, noReload := false, false, false, false, false, false;
      mtime, soffset := 0, 0;
    }

    /** The offset of a query: with rotation the old value of a counter that
        wraps at 2^32, without it always 0. */
    method ServerOffset() returns (offset: uint32)
      modifies this`soffset
      ensures offset == if rotate then old(soffset) else 0
      ensures soffset == if rotate then (old(soffset) + 1) % TWO_32 else old(soffset)
    {
      if rotate {
        soffset := if soffset == TWO_32 - 1 then 0 else soffset + 1;
        var next := soffset;
        offset := if next == 0 then TWO_32 - 1 else next - 1;
        return;
      }
      return 0;
    }

    method ApplyOption(lib: Lib, s: string)
      modifies `ndots, `timeout, `attempts, `rotate, `unknownOpt, `singleRequest, `useTCP, `trustAD, `noReload
      ensures Opts() == OptionStep(lib, old(Opts()), ParseOption(s))
    {
      hide ParseOption, Wrap64;
      match ParseOption(s)
      case NDots(arg) =>
        var n := lib.atoi(arg);
        if n < 0 {
          n := 0;
        } else if n > 15 {
          n := 15;
        }
        ndots := n;
      case Timeout(arg) =>
        var n := lib.atoi(arg);
        if n < 1 {
          n := 1;
        }
        timeout := Wrap64(n * SECOND);
      case Attempts(arg) =>
        var n := lib.atoi(arg);
        if n < 1 {
          n := 1;
        }
        attempts := n;
      case Rotate => rotate := true;
      case SingleRequest => singleRequest := true;
      case UseTCP => useTCP := true;
      case TrustAD => trustAD := true;
      case Edns0 =>
      case NoReload => noReload := true;
      case Unknown => unknownOpt := true;
    }

    method ApplyOptions(lib: Lib, options: seq<string>)
      modifies `ndots, `timeout, `attempts, `rotate, `unknownOpt, `singleRequest, `useTCP, `trustAD, `noReload
      ensures Opts() == OptionsStep(lib, old(Opts()), options)
    {
      for i := 0 to |options|
        invariant Opts() == OptionsStep(lib, old(Opts()), options[..i])
      {
        TakeOne(options, i);
        ApplyOption(lib, options[i]);
      }
      assert options[..|options|] == options;
    }

    method SetSearch(f: seq<string>)
      modifies this`search
      ensures search == SearchNames(f)
    {
      search := [];
      for i := 0 to |f|
        invariant search == SearchNames(f[..i])
      {
        TakeOne(f, i);
        var name := EnsureRooted(f[i]);
        if name == "." {
          continue;
        }
        search := search + [name];
      }
      assert f[..|f|] == f;
    }

    method ApplyFields(lib: Lib, f: seq<string>)
      requires f != []
      modifies this
      ensures View() == FieldsStep(lib, old(View()), f)
      ensures mtime == old(mtime) && soffset == old(soffset)
    {
      if f[0] == "nameserver" {
        if |f| > 1 && |servers| < 3 {
          if lib.isAddr(f[1]) {
            servers := servers + [lib.joinPort(f[1])];
          }
        }
      } else if f[0] == "domain" {
        if |f| > 1 {
          search := [EnsureRooted(f[1])];
        }
      } else if f[0] == "search" {
        SetSearch(f[1..]);
      } else if f[0] == "options" {
        ApplyOptions(lib, f[1..]);
      } else if f[0] == "lookup" {
        lookup := f[1..];
      } else {
        unknownOpt := true;
      }
    }
  }

  /** dnsReadConfig, given the lines of the file and its mtime. */
  method DnsReadConfig(lib: Lib, lines: Option<seq<string>>, fileTime: int) returns (conf: DnsConfig)
    ensures fresh(conf) && conf.View() == ReadSettings(lib, lines)
    ensures conf.soffset == 0 && conf.mtime == if lines.Some? then fileTime else 0
  {
    conf := new DnsConfig();
    if lines.None? {
      conf.servers := DEFAULT_NS;
      conf.search := DefaultSearch(lib);
      return;
    }
    conf.mtime := fileTime;
    for i := 0 to |lines.value|
      invariant fresh(conf) && conf.View() == LinesStep(lib, DEFAULTS, lines.value[..i])
      invariant conf.soffset == 0 && conf.mtime == fileTime
    {
      TakeOne(lines.value, i);
      var line := lines.value[i];
      if IsComment(line) {
        continue;
      }
      var f := lib.fields(line);
      if |f| < 1 {
        continue;
      }
      conf.ApplyFields(lib, f);
    }
    assert lines.value[..|lines.value|] == lines.value;
    if |conf.servers| == 0 {
      conf.servers := DEFAULT_NS;
    }
    if |conf.search| == 0 {
      conf.search := DefaultSearch(lib);
    }
  }

  // --- What every configuration that is read satisfies ---

  ghost predicate WellFormed(c: Settings)
  {
    1 <= |c.servers| <= 3 && c.options.attempts >= 1 && 0 <= c.options.ndots <= 15 && RootedList(c.search)
  }

  ghost predicate PartlyFormed(c: Settings)
  {
    |c.servers| <= 3 && c.options.attempts >= 1 && 0 <= c.options.ndots <= 15 && RootedList(c.search)
  }

  lemma {:induction false} OptionsFormed(lib: Lib, c: Options, options: seq<string>)
    requires c.attempts >= 1 && 0 <= c.ndots <= 15
    ensures var d := OptionsStep(lib, c, options); d.attempts >= 1 && 0 <= d.ndots <= 15
  {
    if options != [] {
      OptionsFormed(lib, c, options[..|options| - 1]);
      OptionFormed(lib, OptionsStep(lib, c, options[..|options| - 1]), ParseOption(options[|options| - 1]));
    }
  }

  lemma OptionFormed(lib: Lib, c: Options, o: Opt)
    requires c.attempts >= 1 && 0 <= c.ndots <= 15
    ensures var d := OptionStep(lib, c, o); d.attempts >= 1 && 0 <= d.ndots <= 15
  {
    hide *;
    NumbersFormed(lib, c, o);
    if !o.NDots? && !o.Attempts? {
      NumbersAlone(lib, c, o);
    }
  }

  lemma NumbersFormed(lib: Lib, c: Options, o: Opt)
    ensures o.NDots? ==> 0 <= OptionStep(lib, c, o).ndots <= 15 && OptionStep(lib, c, o).attempts == c.attempts
    ensures o.Attempts? ==> OptionStep(lib, c, o).attempts >= 1 && OptionStep(lib, c, o).ndots == c.ndots
  {
    hide Wrap64, Clamp, AtLeastOne;
  }

  lemma NumbersAlone(lib: Lib, c: Options, o: Opt)
    requires !o.NDots? && !o.Attempts?
    ensures OptionStep(lib, c, o).ndots == c.ndots && OptionStep(lib, c, o).attempts == c.attempts
  {
    hide Wrap64, Clamp, AtLeastOne;
    match o {
      case Timeout(n) =>
        assert OptionStep(lib, c, o) == c.(timeout := OptionStep(lib, c, o).timeout);
      case _ =>
    }
  }

  lemma FieldsFormed(lib: Lib, c: Settings, f: seq<string>)
    requires f != [] && PartlyFormed(c)
    ensures PartlyFormed(FieldsStep(lib, c, f))
  {
    OptionsFormed(lib, c.options, f[1..]);
  }

  lemma {:induction false} LinesFormed(lib: Lib, lines: seq<string>)
    ensures PartlyFormed(LinesStep(lib, DEFAULTS, lines))
  {
    if lines != [] {
      LinesFormed(lib, lines[..|lines| - 1]);
      var f := LineFields(lib, lines[|lines| - 1]);
      if f != [] {
        FieldsFormed(lib, LinesStep(lib, DEFAULTS, lines[..|lines| - 1]), f);
      }
    }
  }

  /** Whatever the file holds, and whether or not it can be read: one to three
      servers, at least one attempt, ndots in 0..15, and only rooted suffixes. */
  lemma ReadIsWellFormed(lib: Lib, lines: Option<seq<string>>)
    ensures WellFormed(ReadSettings(lib, lines))
  {
    if lines.Some? {
      LinesFormed(lib, lines.value);
    }
  }

  // --- Which directives decide ---

  function NewServer(lib: Lib, f: seq<string>): seq<string>
    requires f != []
  {
    if |f| > 1 && f[0] == "nameserver" && lib.isAddr(f[1]) then [lib.joinPort(f[1])] else []
  }

  function NewSearch(f: seq<string>, search: seq<string>): seq<string>
    requires f != []
  {
    if f[0] == "search" then SearchNames(f[1..])
    else if |f| > 1 && f[0] == "domain" then [EnsureRooted(f[1])]
    else search
  }

  function NewOptions(f: seq<string>): seq<string>
    requires f != []
  {
    if f[0] == "options" then f[1..] else []
  }

  /** The valid addresses of all nameserver lines, in file order. */
  function AllServers(lib: Lib, lines: seq<string>): seq<string>
  {
    if lines == [] then []
    else
      var f := LineFields(lib, lines[|lines| - 1]);
      if f == [] then AllServers(lib, lines[..|lines| - 1])
      else AllServers(lib, lines[..|lines| - 1]) + NewServer(lib, f)
  }

  /** The list set by the last domain or search line. */
  function LastSearch(lib: Lib, lines: seq<string>): seq<string>
  {
    if lines == [] then []
    else
      var f := LineFields(lib, lines[|lines| - 1]);
      if f == [] then LastSearch(lib, lines[..|lines| - 1])
      else NewSearch(f, LastSearch(lib, lines[..|lines| - 1]))
  }

  /** All options of all option lines, in file order. */
  function AllOptions(lib: Lib, lines: seq<string>): seq<string>
  {
    if lines == [] then []
    else
      var f := LineFields(lib, lines[|lines| - 1]);
      if f == [] then AllOptions(lib, lines[..|lines| - 1])
      else AllOptions(lib, lines[..|lines| - 1]) + NewOptions(f)
  }

  /** The text after the prefix in the last option that has it. */
  function LastOption(options: seq<string>, prefix: string): Option<string>
  {
    if options == [] then None
    else
      var s := options[|options| - 1];
      if HasPrefix(s, prefix) then Some(s[|prefix|..]) else LastOption(options[..|options| - 1], prefix)
  }

  /** The part of the settings that options decide, from the last option of each
      kind and from the presence of the flags. */
  ghost predicate OptionsDecide(lib: Lib, c: Options, options: seq<string>)
  {
    NumbersDecide(lib, c, options) && FlagsDecide(c, options)
  }

  ghost predicate NumbersDecide(lib: Lib, c: Options, options: seq<string>)
  {
    && c.ndots == (match LastOption(options, "ndots:") case None => 1 case Some(s) => Clamp(0, lib.atoi(s), 15))
    && c.attempts == (match LastOption(options, "attempts:") case None => 2 case Some(s) => AtLeastOne(lib.atoi(s)))
    && c.timeout == (match LastOption(options, "timeout:")
                     case None => 5 * SECOND
                     case Some(s) => Wrap64(AtLeastOne(lib.atoi(s)) * SECOND))
  }

  ghost predicate FlagsDecide(c: Options, options: seq<string>)
  {
    && (c.rotate <==> "rotate" in options)
    && (c.noReload <==> "no-reload" in options)
    && (c.trustAD <==> "trust-ad" in options)
    && (c.useTCP <==> "use-vc" in options || "usevc" in options || "tcp" in options)
    && (c.singleRequest <==> "single-request" in options || "single-request-reopen" in options)
  }

  /** The option is of the case that its text calls for: the prefixes. */
  ghost predicate NumberKind(o: Opt, s: string)
  {
    && (o.NDots? <==> HasPrefix(s, "ndots:")) && (o.NDots? ==> o.arg == s[6..])
    && (o.Timeout? <==> HasPrefix(s, "timeout:")) && (o.Timeout? ==> o.arg == s[8..])
    && (o.Attempts? <==> HasPrefix(s, "attempts:")) && (o.Attempts? ==> o.arg == s[9..])
  }

  /** The option is of the case that its text calls for: the flags. */
  ghost predicate FlagKind(o: Opt, s: string)
  {
    && (o.Rotate? <==> s == "rotate")
    && (o.NoReload? <==> s == "no-reload")
    && (o.TrustAD? <==> s == "trust-ad")
    && (o.UseTCP? <==> s == "use-vc" || s == "usevc" || s == "tcp")
    && (o.SingleRequest? <==> s == "single-request" || s == "single-request-reopen")
  }

  /** No text is of two cases, so the order of the switch does not matter. */
  lemma OptionKinds(s: string)
    ensures NumberKind(ParseOption(s), s) && FlagKind(ParseOption(s), s)
  {
    Prefixes(s);
  }

  lemma Prefixes(s: string)
    ensures HasPrefix(s, "ndots:") ==> s[0] == 'n' && s[1] == 'd'
    ensures HasPrefix(s, "timeout:") ==> s[0] == 't' && s[1] == 'i'
    ensures HasPrefix(s, "attempts:") ==> s[0] == 'a'
  {
    if HasPrefix(s, "ndots:") {
      assert s[0] == s[..6][0] && s[1] == s[..6][1];
    }
    if HasPrefix(s, "timeout:") {
      assert s[0] == s[..8][0] && s[1] == s[..8][1];
    }
    if HasPrefix(s, "attempts:") {
      assert s[0] == s[..9][0];
    }
  }

  lemma NumbersKept(lib: Lib, c: Options, options: seq<string>, s: string, o: Opt)
    requires NumbersDecide(lib, c, options) && NumberKind(o, s)
    ensures NumbersDecide(lib, OptionStep(lib, c, o), options + [s])
  {
    TakeSnoc(options, s);
  }

  lemma FlagsKept(lib: Lib, c: Options, options: seq<string>, s: string, o: Opt)
    requires FlagsDecide(c, options) && FlagKind(o, s)
    ensures FlagsDecide(OptionStep(lib, c, o), options + [s])
  {
    hide Wrap64, Clamp, AtLeastOne;
    assert forall t :: t in options + [s] <==> t in options || t == s;
  }

  lemma OptionDecides(lib: Lib, c: Options, options: seq<string>, s: string)
    requires OptionsDecide(lib, c, options)
    ensures OptionsDecide(lib, OptionStep(lib, c, ParseOption(s)), options + [s])
  {
    OptionKinds(s);
    NumbersKept(lib, c, options, s, ParseOption(s));
    FlagsKept(lib, c, options, s, ParseOption(s));
  }

  lemma {:induction false} OptionsDecided(lib: Lib, c: Options, done: seq<string>, options: seq<string>)
    requires OptionsDecide(lib, c, done)
    ensures OptionsDecide(lib, OptionsStep(lib, c, options), done + options)
  {
    if options == [] {
      assert done + options == done;
    } else {
      var front, s := options[..|options| - 1], options[|options| - 1];
      OptionsDecided(lib, c, done, front);
      OptionDecides(lib, OptionsStep(lib, c, front), done + front, s);
      SplitLast(options);
      Associate(done, front, [s]);
    }
  }

  function FirstThree(s: seq<string>): seq<string>
  {
    if |s| <= 3 then s else s[..3]
  }

  ghost predicate Decided(lib: Lib, c: Settings, servers: seq<string>, search: seq<string>, options: seq<string>)
  {
    c.servers == FirstThree(servers) && c.search == search && OptionsDecide(lib, c.options, options)
  }

  lemma FieldsDecide(lib: Lib, c: Settings, f: seq<string>,
                     servers: seq<string>, search: seq<string>, options: seq<string>)
    requires f != [] && Decided(lib, c, servers, search, options)
    ensures Decided(lib, FieldsStep(lib, c, f), servers + NewServer(lib, f),
            NewSearch(f, search), options + NewOptions(f))
  {
    assert servers + [] == servers && options + [] == options;
    if f[0] == "options" {
      OptionsDecided(lib, c.options, options, f[1..]);
    } else {
      UnknownDecides(lib, c.options, options);
    }
  }

  lemma UnknownDecides(lib: Lib, c: Options, options: seq<string>)
    requires OptionsDecide(lib, c, options)
    ensures OptionsDecide(lib, c.(unknownOpt := true), options)
  {
  }

  lemma {:induction false} LinesDecide(lib: Lib, lines: seq<string>)
    ensures Decided(lib, LinesStep(lib, DEFAULTS, lines),
                    AllServers(lib, lines), LastSearch(lib, lines), AllOptions(lib, lines))
  {
    if lines != [] {
      var front := lines[..|lines| - 1];
      LinesDecide(lib, front);
      var f := LineFields(lib, lines[|lines| - 1]);
      if f != [] {
        FieldsDecide(lib, LinesStep(lib, DEFAULTS, front), f,
                     AllServers(lib, front), LastSearch(lib, front), AllOptions(lib, front));
      }
    }
  }

  /** The servers are the first three valid ones of the file, the search list is
      that of the last domain or search line, each numeric option is the last of
      its kind, each flag is set when it occurs anywhere; an empty server or
      search list is replaced by the default. */
  lemma FileDecides(lib: Lib, lines: seq<string>)
    ensures var c := ReadSettings(lib, Some(lines));
            var servers, search := FirstThree(AllServers(lib, lines)), LastSearch(lib, lines);
            && c.servers == (if servers == [] then ["127.0.0.1:53", "[::1]:53"] else servers)
            && c.search == (if search == [] then DefaultSearch(lib) else search)
            && OptionsDecide(lib, c.options, AllOptions(lib, lines))
    ensures ReadSettings(lib, None) == ReadSettings(lib, Some([]))
  {
    LinesDecide(lib, lines);
  }

  /** A comment or a line without fields changes nothing; any other line is one
      more directive. */
  lemma LineCounts(lib: Lib, c: Settings, lines: seq<string>, line: string)
    ensures var (d, f) := (LinesStep(lib, c, lines), lib.fields(line));
            LinesStep(lib, c, lines + [line]) ==
            if (line != "" && line[0] in ";#") || f == [] then d else FieldsStep(lib, d, f)
  {
    TakeSnoc(lines, line);
  }

  function AllRooted(f: seq<string>): (r: seq<string>)
    ensures |r| == |f| && forall i | 0 <= i < |r| :: r[i] == EnsureRooted(f[i])
  {
    seq(|f|, i requires 0 <= i < |f| => EnsureRooted(f[i]))
  }

  /** A search line lists all its names in order, rooted, but for the root. */
  lemma {:induction false} SearchNamesAre(f: seq<string>)
    ensures SearchNames(f) == Filter(AllRooted(f), NotRoot())
  {
    hide EnsureRooted;
    if f != [] {
      var front, x := f[..|f| - 1], EnsureRooted(f[|f| - 1]);
      SearchNamesAre(front);
      assert AllRooted(f) == AllRooted(front) + [x];
      FilterLast(AllRooted(front), x, NotRoot());
    }
  }

  function NotRoot(): string -> bool
  {
    (s: string) => s != "."
  }

  /** Without a search list, the domain of the host name: what follows its first
      dot, if anything does. */
  lemma DefaultSearchIs(lib: Lib, host: string, domain: string)
    requires '.' !in host
    ensures lib.hostname == None || lib.hostname == Some(host) || lib.hostname == Some(host + ".") ==>
              DefaultSearch(lib) == []
    ensures lib.hostname == Some(host + "." + domain) && domain != "" ==>
              DefaultSearch(lib) == [if EndsWithDot(domain) then domain else domain + "."]
  {
    FirstDot(host, "");
    FirstDot(host, "." + domain);
    assert host + "" == host && host + ("." + domain) == host + "." + domain;
    FirstDot(host, ".");
    assert (host + "." + domain)[|host| + 1..] == domain;
  }

  lemma {:induction false} FirstDot(host: string, rest: string)
    requires '.' !in host && (rest != "" ==> rest[0] == '.')
    ensures IndexDot(host + rest) == |host|
  {
    if host == "" {
      assert host + rest == rest;
    } else {
      assert host[0] in host && (host + rest)[1..] == host[1..] + rest;
      FirstDot(host[1..], rest);
    }
  }

  /** A timeout option means that many seconds exactly while the product fits in
      64 bits; one second more and it is negative. */
  lemma TimeoutFaithful(n: int)
    requires 1 <= n < 0x8000_0000_0000_0000
    ensures Wrap64(n * SECOND) == n * SECOND <==> n <= 9223372036
    ensures Wrap64(9223372037 * SECOND) < 0
  {
  }
}
