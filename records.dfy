/** The stored entities the core reads and writes. The relational schema
    itself belongs to the persistence layer and is not part of this model;
    only the columns the handlers use appear here. Timestamps are integer
    milliseconds. */
module Records {
  import opened Base

  /** One observation of a server (a `playerCount` row). `players` is the
      raw text the management API returned, e.g. "['a', 'b']". */
  datatype PlayerCount = PlayerCount(
    createdAt: int,
    online: bool,
    playerCount: int,
    maxPlayers: int,
    players: string)

  /** A status row: one tracked server and the message that shows it.
      `updatedAt` is when the updater last refreshed it. */
  datatype StatusRow = StatusRow(
    id: int,
    serverId: string,
    serverName: string,
    serverVersion: string,
    channelId: string,
    messageId: Option<string>,
    javaIp: Option<string>,
    javaPort: Option<string>,
    bedrockIp: Option<string>,
    bedrockPort: Option<string>,
    showMaxPlayers: bool,
    maintenance: bool,
    online: bool,
    updatedAt: int)

  /** A bot user (`discordUser` row) and its permission flags. */
  datatype DiscordUser = DiscordUser(
    discordId: string,
    creationAllowed: bool,
    updateAllowed: bool,
    deleteAllowed: bool,
    purgeAllowed: bool)

  /** What the status endpoint returns inside an "ok" reply. */
  datatype ServerStats = ServerStats(
    serverId: string,
    serverName: string,
    version: string,
    running: bool,
    online: int,
    max: int,
    players: string)

  /** The status endpoint's reply: "ok" with data, another status, or a
      transport error (axios throws). */
  datatype StatsReply = StatsOk(stats: ServerStats) | StatsNotOk | StatsThrew

  /** One day in milliseconds. */
  const DayMs := 1000 * 60 * 60 * 24

  /** The samples taken at or after `from`: the `createdAt: { gte: from }`
      filter. The body is the definition of the order: it keeps the selected
      samples in stored order, each as often as it is stored. */
  function Since(samples: seq<PlayerCount>, from: int): (r: seq<PlayerCount>)
    ensures |r| <= |samples|
    ensures forall x :: x in r <==> x in samples && from <= x.createdAt
    ensures multiset(r) <= multiset(samples)
  {
    if samples == [] then []
    else
      var rest := Since(samples[1..], from);
      assert forall x :: x in samples <==> x == samples[0] || x in samples[1..];
      assert samples == [samples[0]] + samples[1..];
      if from <= samples[0].createdAt then [samples[0]] + rest else rest
  }
}
