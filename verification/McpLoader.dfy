/** The layered configuration loader that keeps the last valid content of each file
    (mcp/loader.go). What a read of a file finds is an input. */
module McpLoader {
  import opened Messages
  import opened Strings

  datatype ServerConfig = ServerConfig(kind: string, command: string, url: string)

  datatype FileState = Absent
                     | Unreadable(reason: string)
                     | Blank
                     | Malformed(reason: string)
                     | Parsed(servers: map<string, ServerConfig>)

  datatype Layer = Layer(path: string, source: string)
  datatype Snapshot = Snapshot(cfg: map<string, ServerConfig>, skipped: set<string>)
  datatype LayerState = LayerState(path: string, source: string, present: bool, ok: bool, stale: bool, err: bool,
                                   servers: nat, skipped: set<string>)
  datatype LoadResult = LoadResult(config: map<string, ServerConfig>, source: map<string, string>,
                                   layers: seq<LayerState>)

  predicate BlankName(s: string) { TrimSpace(s) == "" }

  /** The entries of a layer that are usable, and the names of those that are not. */
  function Usable(servers: map<string, ServerConfig>, validate: ServerConfig -> Option<ServerConfig>)
    : map<string, ServerConfig>
  {
    map name | name in servers && !BlankName(name) && validate(servers[name]).Some? :: validate(servers[name]).value
  }

  function Broken(servers: map<string, ServerConfig>, validate: ServerConfig -> Option<ServerConfig>): set<string> {
    set name | name in servers && !BlankName(name) && validate(servers[name]).None?
  }

  /** The last valid content since the file was last absent. */
  function Effective(history: seq<FileState>, validate: ServerConfig -> Option<ServerConfig>): Option<Snapshot> {
    if history == [] then None
    else match history[|history| - 1]
         case Absent => None
         case Parsed(servers) => Some(Snapshot(Usable(servers, validate), Broken(servers, validate)))
         case _ => Effective(history[..|history| - 1], validate)
  }

  lemma {:induction false} EffectiveStep(history: seq<FileState>, read: FileState,
                                         validate: ServerConfig -> Option<ServerConfig>)
    ensures Effective(history + [read], validate) ==
            match read
            case Absent => None
            case Parsed(servers) => Some(Snapshot(Usable(servers, validate), Broken(servers, validate)))
            case _ => Effective(history, validate)
  {
    assert (history + [read])[..|history|] == history;
  }

  type Histories = map<string, seq<FileState>>

  function HistoryOf(h: Histories, path: string): seq<FileState> { if path in h then h[path] else [] }

  /** The histories behind the reads of the first n layers of a load. */
  function AfterReads(h: Histories, layers: seq<Layer>, found: seq<FileState>, n: nat): Histories
    requires |found| == |layers| && n <= |layers|
  {
    if n == 0 then h
    else
      var before, path := AfterReads(h, layers, found, n - 1), layers[n - 1].path;
      if BlankName(path) then before else before[path := HistoryOf(before, path) + [found[n - 1]]]
  }

  /** What layer i contributes to a load: its effective content when it is read. */
  function Contribution(h: Histories, layers: seq<Layer>, found: seq<FileState>, i: nat,
                        validate: ServerConfig -> Option<ServerConfig>): map<string, ServerConfig>
    requires |found| == |layers| && i < |layers|
  {
    if BlankName(layers[i].path) then map[]
    else match Effective(HistoryOf(AfterReads(h, layers, found, i + 1), layers[i].path), validate)
         case None => map[]
         case Some(s) => s.cfg
  }

  class Loader {
    const validate: ServerConfig -> Option<ServerConfig>
    var last: map<string, Snapshot>
    ghost var history: Histories

    constructor (validate: ServerConfig -> Option<ServerConfig>)
      ensures Valid() && history == map[] && this.validate == validate
    {
      this.validate, last, history := validate, map[], map[];
    }

    /** `last` holds the effective content of every file that has one. */
    ghost predicate Valid()
      reads this
    {
      forall path {:trigger path in last} {:trigger HistoryOf(history, path)} ::
        Effective(HistoryOf(history, path), validate) == if path in last then Some(last[path]) else None
    }

    method Normalized(servers: map<string, ServerConfig>) returns (cfg: map<string, ServerConfig>, skipped: set<string>)
      ensures cfg == Usable(servers, validate) && skipped == Broken(servers, validate)
    {
      cfg, skipped := map[], {};
      var todo := servers.Keys;
      ghost var seen: map<string, ServerConfig> := map[];
      while todo != {}
        invariant todo <= servers.Keys
        invariant seen == map name | name in servers && name !in todo :: servers[name]
        invariant cfg == Usable(seen, validate) && skipped == Broken(seen, validate)
      {
        var name :| name in todo;
        todo := todo - {name};
        ghost var before := seen;
        seen := map n | n in servers && n !in todo :: servers[n];
        assert seen == before[name := servers[name]];
        if BlankName(name) {
          assert Usable(seen, validate) == cfg && Broken(seen, validate) == skipped;
          continue;
        }
        var norm := validate(servers[name]);
        if norm.None? {
          assert Usable(seen, validate) == cfg;
          skipped := skipped + {name};
          continue;
        }
        assert Broken(seen, validate) == skipped;
        cfg := cfg[name := norm.value];
      }
      assert seen == servers;
    }

    /** The state of a layer that goes on with its last valid content. */
    function Stale(ly: Layer): LayerState
      reads this
    {
      if ly.path in last then LayerState(ly.path, ly.source, true, false, true, true, |last[ly.path].cfg|,
                                         last[ly.path].skipped)
      else LayerState(ly.path, ly.source, true, false, false, true, 0, {})
    }

    /** One read of one layer. */
    method LoadLayer(ly: Layer, read: FileState) returns (st: LayerState, cfg: map<string, ServerConfig>)
      requires Valid()
      modifies this
      ensures Valid()
      ensures history == if BlankName(ly.path) then old(history)
                         else old(history)[ly.path := HistoryOf(old(history), ly.path) + [read]]
      ensures cfg == if BlankName(ly.path) then map[]
                     else match Effective(HistoryOf(history, ly.path), validate)
                          case None => map[]
                          case Some(s) => s.cfg
      ensures st.servers == |cfg|
      ensures st.ok <==> BlankName(ly.path) || read.Absent? || read.Parsed?
      ensures st.stale <==> !st.ok && ly.path in old(last)
      ensures st.stale ==> cfg == old(last)[ly.path].cfg
    {
      hide BlankName, Usable, Broken, Effective;
      if BlankName(ly.path) {
        return LayerState(ly.path, ly.source, false, true, false, false, 0, {}), map[];
      }
      ghost var before := history;
      history := history[ly.path := HistoryOf(history, ly.path) + [read]];
      EffectiveStep(HistoryOf(before, ly.path), read, validate);
      assert HistoryOf(history, ly.path) == HistoryOf(before, ly.path) + [read];
      assert forall path | path != ly.path :: HistoryOf(history, path) == HistoryOf(before, path);
      match read {
        case Absent =>
          last := last - {ly.path};
          return LayerState(ly.path, ly.source, false, true, false, false, 0, {}), map[];
        case Parsed(servers) =>
          var usable, skipped := Normalized(servers);
          last := last[ly.path := Snapshot(usable, skipped)];
          return LayerState(ly.path, ly.source, true, true, false, false, |usable|, skipped), usable;
        case Unreadable(_) =>
        case Blank =>
        case Malformed(_) =>
      }
      st := Stale(ly);
      cfg := if ly.path in last then last[ly.path].cfg else map[];
    }

    /** Loads the layers over an in-memory base, the last layer winning. */
    method LoadWithBase(base: map<string, ServerConfig>, baseSource: string, layers: seq<Layer>, found: seq<FileState>)
      returns (r: LoadResult)
      requires Valid() && |found| == |layers|
      modifies this
      ensures Valid() && history == AfterReads(old(history), layers, found, |layers|)
      ensures |r.layers| == |layers|
      ensures AllWin(old(history), base, baseSource, layers, found, |layers|, validate, r.config, r.source)
    {
      hide Usable, AllWin, Effective, Broken;
      var out, bad := Normalized(base);
      var src := map name | name in out :: baseSource;
      var states: seq<LayerState> := [];
      BaseWins(history, base, baseSource, layers, found, validate, out, src);
      for i := 0 to |layers|
        invariant Valid() && history == AfterReads(old(history), layers, found, i)
        invariant |states| == i
        invariant AllWin(old(history), base, baseSource, layers, found, i, validate, out, src)
      {
        ghost var before, from := out, src;
        var st, cfg := LoadLayer(layers[i], found[i]);
        states := states + [st];
        assert cfg == Contribution(old(history), layers, found, i, validate);
        out := out + cfg;
        src := src + map name | name in cfg :: layers[i].source;
        LayerWins(old(history), base, baseSource, layers, found, i, validate, before, from, out, src);
      }
      r := LoadResult(out, src, states);
    }
  }

  /** The entry of a name: that of the highest of the first n layers whose effective content has it,
      or of the base. */
  function Winner(h: Histories, base: map<string, ServerConfig>, baseSource: string, layers: seq<Layer>,
                  found: seq<FileState>,
                  n: nat, validate: ServerConfig -> Option<ServerConfig>, name: string): Option<(ServerConfig, string)>
    requires |found| == |layers| && n <= |layers|
  {
    if n == 0 then
      var own := Usable(base, validate);
      if name in own then Some((own[name], baseSource)) else None
    else
      var cfg := Contribution(h, layers, found, n - 1, validate);
      if name in cfg then Some((cfg[name], layers[n - 1].source))
      else Winner(h, base, baseSource, layers, found, n - 1, validate, name)
  }

  function Entry(config: map<string, ServerConfig>, source: map<string, string>,
                 name: string): Option<(ServerConfig, string)> {
    if name in config && name in source then Some((config[name], source[name])) else None
  }

  ghost predicate AllWin(h: Histories, base: map<string, ServerConfig>, baseSource: string, layers: seq<Layer>,
                         found: seq<FileState>,
                         n: nat, validate: ServerConfig -> Option<ServerConfig>,
                         config: map<string, ServerConfig>, source: map<string, string>)
    requires |found| == |layers| && n <= |layers|
  {
    config.Keys == source.Keys &&
    forall name :: Entry(config, source, name) == Winner(h, base, baseSource, layers, found, n, validate, name)
  }

  lemma {:induction false} BaseWins(h: Histories, base: map<string, ServerConfig>, baseSource: string,
                                    layers: seq<Layer>, found: seq<FileState>,
                                    validate: ServerConfig -> Option<ServerConfig>,
                                    config: map<string, ServerConfig>, source: map<string, string>)
    requires |found| == |layers| && config == Usable(base, validate) && source == map name | name in config ::
             baseSource
    ensures AllWin(h, base, baseSource, layers, found, 0, validate, config, source)
  {
    hide Usable;
    forall name ensures Entry(config, source, name) == Winner(h, base, baseSource, layers, found, 0, validate, name) {}
  }

  lemma {:induction false} LayerWins(h: Histories, base: map<string, ServerConfig>, baseSource: string,
                                     layers: seq<Layer>, found: seq<FileState>,
                                     n: nat, validate: ServerConfig -> Option<ServerConfig>,
                                     before: map<string, ServerConfig>, from: map<string, string>,
                                     config: map<string, ServerConfig>, source: map<string, string>)
    requires |found| == |layers| && n < |layers| &&
             AllWin(h, base, baseSource, layers, found, n, validate, before, from)
    requires var cfg := Contribution(h, layers, found, n, validate);
             config == before + cfg && source == from + map name | name in cfg :: layers[n].source
    ensures AllWin(h, base, baseSource, layers, found, n + 1, validate, config, source)
  {
    hide Contribution, Usable;
    forall name
      ensures Entry(config, source, name) == Winner(h, base, baseSource, layers, found, n + 1, validate, name)
    {
      assert Entry(before, from, name) == Winner(h, base, baseSource, layers, found, n, validate, name);
    }
  }
}
