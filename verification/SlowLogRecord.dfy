/** The slow-log record of the monitoring script and its printed form. */
module SlowLogRecord {
  import opened SlowLogSplit

  datatype Record = Record(
    logLevel: string, time: string, node: string, index: string, shard: string, took: string,
    tookMillis: string, totalHits: string, stats: string, searchType: string, totalShards: string,
    source: string, id: string)

  function Bracket(tag: string, text: string): string {
    tag + "[" + text + "]"
  }

  /** The comma-separated elements of the printed form. */
  function Elements(r: Record): seq<string> {
    [Bracket("", r.logLevel), r.time, Bracket("", r.node),
     Bracket("", r.index) + Bracket("", r.shard) + Bracket(" took", r.took),
     Bracket("took_millis", r.tookMillis), Bracket("total_hits", r.totalHits + " hits"), Bracket("stats", r.stats),
     Bracket("search_type", r.searchType), Bracket("total_shards", r.totalShards), Bracket("source", r.source),
     Bracket("id", r.id)]
  }

  /** `SlowLogRecord.__str__`. */
  function Print(r: Record): string {
    Join(Elements(r))
  }

  function Fields(r: Record): seq<string> {
    [r.logLevel, r.time, r.node, r.index, r.shard, r.took, r.tookMillis, r.totalHits, r.stats, r.searchType,
     r.totalShards, r.source, r.id]
  }

  /** `SlowLogRecord.__init__` on thirteen values. */
  function FromFields(data: seq<string>): Record
    requires |data| == 13
  {
    Record(data[0], data[1], data[2], data[3], data[4], data[5], data[6], data[7], data[8], data[9], data[10],
           data[11], data[12])
  }
}
