/** The per-run state that the agents package rewrites (agents/agent_loop.go AgentContext and
    agents/slim.go slimState). */
module Context {
  import opened Messages

  /** The line range a read_file result reports in its header; None when there is no header. */
  datatype Range = Range(start: int, end: int)

  /** Slimming thresholds; `text` fields stand for the hash of the text, taken as injective. */
  datatype SlimConfig = SlimConfig(dedupMinBytes: nat, staleRounds: nat, staleMinBytes: nat,
                                   readFold: bool, bashRerunDedup: bool, searchRerunDedup: bool,
                                   mergePairs: bool, images: Option<ImageConfig>)
  datatype ImageConfig = ImageConfig(keep: int, maxRounds: int)
  datatype SlimRead = SlimRead(index: nat, text: Text)
  datatype ReadAnchor = ReadAnchor(index: nat, rng: Option<Range>, gen: nat, folded: bool)
  datatype RerunRef = RerunRef(index: nat, text: Text)
  datatype EditStat = EditStat(count: nat, added: nat, removed: nat, statsKnown: bool)

  type Key = (string, string)

  /** A tool result on its way into the context. `argPath` is the path argument of the call,
      `header` what the read_file header line of the text says, `stats` the parsed edit counts. */
  datatype Result = Result(call: Call, text: Text, images: seq<Block>, argPath: string,
                           headerPath: string, range: Option<Range>, stats: Option<(nat, nat)>)

  /** A tool result that entered the context since the last reset, with its place; only proofs look
      at this history. */
  datatype Entry = Entry(index: nat, result: Result)

  class SlimState {
    const cfg: SlimConfig
    var readIndex: map<string, SlimRead>
    var roundStart: seq<nat>
    var readAnchors: map<string, seq<ReadAnchor>>
    var rerunIndex: map<Key, RerunRef>
    var edits: map<string, EditStat>
    var editGen: map<string, nat>
    var imagesRemoved: nat
    ghost var log: seq<Entry>

    constructor (cfg: SlimConfig)
      ensures this.cfg == cfg && IsReset()
    {
      this.cfg := cfg;
      readIndex, roundStart, readAnchors, rerunIndex := map[], [], map[], map[];
      edits, editGen, imagesRemoved, log := map[], map[], 0, [];
    }

    ghost predicate IsReset()
      reads this
    {
      readIndex == map[] && roundStart == [] && readAnchors == map[] && rerunIndex == map[] &&
      edits == map[] && editGen == map[] && imagesRemoved == 0 && log == []
    }

    /** After the message list was replaced every stored index is void. */
    method Reset()
      modifies this
      ensures IsReset()
    {
      readIndex, roundStart, readAnchors, rerunIndex := map[], [], map[], map[];
      edits, editGen, imagesRemoved, log := map[], map[], 0, [];
    }
  }

  class AgentContext {
    var messages: seq<Message>
    const slim: SlimState?

    constructor (messages: seq<Message>, slim: SlimState?)
      ensures this.messages == messages && this.slim == slim
    {
      this.messages := messages;
      this.slim := slim;
    }
  }
}
