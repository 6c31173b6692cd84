/** The bot's entry point: the base-URL normalisation and the owner's
    permission upsert done at startup, and the scheduled status updater,
    which refreshes every due status row, stores one new sample for it and
    asks for its message to be edited. */
module Index {
  import opened Base
  import opened Records
  import opened Sorting
  import Chart
  import Embed
  import StatusCommand
  import Consts

  // ---------------------------------------------------------------------
  // Startup.

  /** `url.replace(/\/$/, "")`: one trailing slash, if any, is removed. */
  function StripTrailingSlash(url: string): (r: string)
    ensures |url| > 0 && url[|url| - 1] == '/' ==> r + "/" == url
    ensures !(|url| > 0 && url[|url| - 1] == '/') ==> r == url
  {
    if |url| > 0 && url[|url| - 1] == '/' then url[..|url| - 1] else url
  }

  /** Exactly one slash goes: a doubled slash leaves one behind, and a URL
      without one is kept. */
  lemma StripsOneSlash(u: string)
    ensures StripTrailingSlash(u + "/") == u
    ensures StripTrailingSlash(u + "//") == u + "/"
  {
    assert (u + "/")[..|u|] == u;
    assert (u + "//")[..|u| + 1] == u + "/";
  }

  /** The owner upsert: the owner's record is created or updated with the
      create, update and delete rights. Purge is never written: it keeps its
      stored value, or the column default `purgeDefault` for a new record. */
  function UpsertOwner(users: map<string, DiscordUser>, ownerId: string, purgeDefault: bool)
    : (r: map<string, DiscordUser>)
    ensures ownerId in r && (ownerId !in users ==> r[ownerId].discordId == ownerId)
    ensures r[ownerId].creationAllowed && r[ownerId].updateAllowed && r[ownerId].deleteAllowed
    ensures r[ownerId].purgeAllowed == if ownerId in users then users[ownerId].purgeAllowed else purgeDefault
    ensures forall k | k != ownerId :: (k in r <==> k in users) && (k in users ==> r[k] == users[k])
  {
    if ownerId in users then
      users[ownerId := users[ownerId].(creationAllowed := true, deleteAllowed := true, updateAllowed := true)]
    else
      users[ownerId := DiscordUser(ownerId, true, true, true, purgeDefault)]
  }

  /** Running the upsert at every start changes nothing after the first. */
  lemma UpsertOwnerIdempotent(users: map<string, DiscordUser>, ownerId: string, purgeDefault: bool)
    ensures UpsertOwner(UpsertOwner(users, ownerId, purgeDefault), ownerId, purgeDefault)
      == UpsertOwner(users, ownerId, purgeDefault)
  {
  }

  /** After startup the owner passes the create, modify and delete gates of
      `/crafty`, but purge only if the record already allowed it (or the
      column default does). */
  lemma OwnerPassesGates(users: map<string, DiscordUser>, ownerId: string, purgeDefault: bool,
                         cmd: StatusCommand.Subcommand)
    ensures var owner := UpsertOwner(users, ownerId, purgeDefault)[ownerId];
      && (cmd.Create? || cmd.Modify? || cmd.Delete? ==> StatusCommand.Needed(cmd, owner))
      && (cmd.Purge? ==> (StatusCommand.Needed(cmd, owner) <==>
                          if ownerId in users then users[ownerId].purgeAllowed else purgeDefault))
  {
  }

  // ---------------------------------------------------------------------
  // Which rows are due.

  /** Milliseconds between refreshes: 30 s in the debug and development
      environments, 5 minutes otherwise. */
  function IntervalMs(env: Option<string>): (r: int)
    ensures r == 30000 || r == 300000
    ensures r == 30000 <==> env == Some("debug") || env == Some("development")
  {
    if env == Some("debug") || env == Some("development") then 1000 * 60 / 2 else 1000 * 60 * 5
  }

  /** `updatedAt <= now - interval`. */
  predicate Due(row: StatusRow, now: int, env: Option<string>)
  {
    row.updatedAt <= now - IntervalMs(env)
  }

  // ---------------------------------------------------------------------
  // Which message a row's update goes to.

  /** A message in a channel, as far as the scan looks at it. */
  datatype ChannelMessage = ChannelMessage(id: string, byThisBot: bool, createdTimestamp: int)

  /** `fetch({ limit: 30 })`: the newest 30 of a channel listed newest first. */
  function Take30(latest: seq<ChannelMessage>): (r: seq<ChannelMessage>)
    ensures |r| <= 30
    ensures forall x :: x in r ==> x in latest
  {
    if |latest| <= 30 then latest else latest[..30]
  }

  /** `filter(msg => msg.author.id === bot.user?.id)`; as with `filter`, the
      body keeps the selected messages in their order. */
  function BotMessages(msgs: seq<ChannelMessage>): (r: seq<ChannelMessage>)
    ensures forall x :: x in r <==> x in msgs && x.byThisBot
  {
    if msgs == [] then []
    else
      var rest := BotMessages(msgs[1..]);
      assert forall x :: x in msgs <==> x == msgs[0] || x in msgs[1..];
      if msgs[0].byThisBot then [msgs[0]] + rest else rest
  }
  /** The bot's messages are taken from the fetched ones, each as often as
      it was fetched. */
  lemma {:induction false} BotMessagesSubMultiset(msgs: seq<ChannelMessage>)
    ensures multiset(BotMessages(msgs)) <= multiset(msgs)
  {
    if msgs != [] {
      BotMessagesSubMultiset(msgs[1..]);
      assert msgs == [msgs[0]] + msgs[1..];
    }
  }


  /** `sort((a, b) => b.createdTimestamp - a.createdTimestamp)`: newest first. */
  function ByNewest(): (ChannelMessage, ChannelMessage) -> bool
  {
    (a: ChannelMessage, b: ChannelMessage) => a.createdTimestamp >= b.createdTimestamp
  }

  lemma ByNewestIsTotalPreorder()
    ensures TotalPreorder(ByNewest())
  {
  }

  /** `.first()` of the sorted bot messages among the newest 30. */
  function NewestBotMessage(latest: seq<ChannelMessage>): Option<ChannelMessage>
  {
    var sorted := Sort(BotMessages(Take30(latest)), ByNewest());
    if sorted == [] then None else Some(sorted[0])
  }

  /** The scan finds a message exactly when the bot wrote one of the newest
      30, and then it finds the newest of those. */
  lemma NewestBotMessageIsNewest(latest: seq<ChannelMessage>)
    ensures NewestBotMessage(latest).None? <==> forall x | x in Take30(latest) :: !x.byThisBot
    ensures NewestBotMessage(latest).Some? ==>
      var m := NewestBotMessage(latest).value;
      && m in Take30(latest) && m.byThisBot
      && forall x | x in Take30(latest) && x.byThisBot :: x.createdTimestamp <= m.createdTimestamp
  {
    var bots := BotMessages(Take30(latest));
    var sorted := Sort(bots, ByNewest());
    if sorted == [] {
      assert |bots| == 0;
    } else {
      ByNewestIsTotalPreorder();
      SortSorted(bots, ByNewest());
      assert sorted[0] in multiset(bots);
      forall x | x in Take30(latest) && x.byThisBot
        ensures x.createdTimestamp <= sorted[0].createdTimestamp
      {
        assert x in multiset(sorted);
        var j :| 0 <= j < |sorted| && sorted[j] == x;
        if j > 0 {
          assert ByNewest()(sorted[0], sorted[j]);
        }
      }
    }
  }

  // ---------------------------------------------------------------------
  // One row.

  /** What Discord and the management API answer during a tick: which
      channels fetch as sendable guild text channels, which stored message
      ids fetch, each channel's messages newest first, the stats endpoint
      per server id. */
  datatype World = World(
    usable: string -> bool,
    fetches: (string, string) -> bool,
    latest: string -> seq<ChannelMessage>,
    stats: string -> StatsReply,
    collate: (string, string) -> bool)

  /** The edit the updater asks for (it does not wait for it). */
  datatype EditRequest = EditRequest(channelId: string, messageId: string, embed: Embed.Embed, chart: Chart.LineChart)

  /** One row's result: its new columns, the sample stored for it, the edit. */
  datatype RowOutcome = RowOutcome(row: StatusRow, sample: Option<PlayerCount>, edit: Option<EditRequest>)

  /** The columns a successful refresh writes. */
  function Refreshed(row: StatusRow, s: ServerStats, now: int): (r: StatusRow)
    ensures r.id == row.id && r.channelId == row.channelId && r.messageId == row.messageId
    ensures r.showMaxPlayers == row.showMaxPlayers
    ensures r.javaIp == row.javaIp && r.javaPort == row.javaPort
    ensures r.bedrockIp == row.bedrockIp && r.bedrockPort == row.bedrockPort
    ensures r.serverId == s.serverId && r.serverName == s.serverName
    ensures r.serverVersion == StatusCommand.SanitizeVersion(s.version)
    ensures !r.maintenance && r.online == s.running && r.updatedAt == now
  {
    row.(serverId := s.serverId, serverName := s.serverName,
         serverVersion := StatusCommand.SanitizeVersion(s.version),
         maintenance := false, online := s.running, updatedAt := now)
  }

  /** The chart of a refresh that stored `sample`: the status's samples of
      the 24 hours up to it, sorted oldest first as the database returns
      them, drawn with the server's running flag and, if asked, the
      sample's maximum player count. */
  function DayChart(past: seq<PlayerCount>, sample: PlayerCount, running: bool, showMax: bool): Chart.LineChart
  {
    var window := Since(past + [sample], sample.createdAt - DayMs);
    assert sample in window;
    Chart.ChartOf(Sort(window, Chart.ByTime()), Chart.Flag(running),
                  (showMax, if showMax then sample.maxPlayers else -1))
  }

  /** The day chart is the chart of the last day's samples sorted by time. */
  lemma DayChartUnfold(past: seq<PlayerCount>, sample: PlayerCount, running: bool, showMax: bool)
    ensures sample in Since(past + [sample], sample.createdAt - DayMs)
    ensures DayChart(past, sample, running, showMax)
         == Chart.ChartOf(Sort(Since(past + [sample], sample.createdAt - DayMs), Chart.ByTime()), Chart.Flag(running),
                          (showMax, if showMax then sample.maxPlayers else -1))
  {
    assert sample in Since(past + [sample], sample.createdAt - DayMs);
  }

  /** One point per sample of the last day, including the new one, oldest
      first. */
  lemma DayChartPoints(past: seq<PlayerCount>, sample: PlayerCount, running: bool, showMax: bool)
    ensures var chart := DayChart(past, sample, running, showMax);
      && |chart.labels| == |Since(past + [sample], sample.createdAt - DayMs)|
      && (forall i, j | 0 <= i < j < |chart.labels| :: chart.labels[i] <= chart.labels[j])
  {
    var data := Since(past + [sample], sample.createdAt - DayMs);
    DayChartUnfold(past, sample, running, showMax);
    Chart.ChartLabelsAscending(data, Chart.Flag(running), (showMax, if showMax then sample.maxPlayers else -1));
  }

  /** The colour follows the running flag; the axis ends 5 above the new
      sample's maximum when that is shown, and 5 above the day's highest
      player count otherwise. */
  lemma DayChartAxis(past: seq<PlayerCount>, sample: PlayerCount, running: bool, showMax: bool)
    ensures var chart := DayChart(past, sample, running, showMax);
      && chart.borderColour == (if running then Consts.OnlineColour else Consts.OfflineColour)
      && (showMax ==> chart.yMax == sample.maxPlayers + 5)
      && (!showMax ==> chart.yMax == Chart.MaxPlayerCount(Since(past + [sample], sample.createdAt - DayMs)) + 5)
  {
    var data := Since(past + [sample], sample.createdAt - DayMs);
    DayChartUnfold(past, sample, running, showMax);
    if !showMax {
      Chart.SortedChartAxis(data, Chart.Flag(running));
    }
  }

  /** A successful refresh: the row is stamped, a sample is stored, and the
      message gets the embed of the row with its new sample and the day's
      chart. The `online` column of the stored sample is not written by the
      updater, so it has the column default `onlineDefault`. */
  function Success(row: StatusRow, msgId: string, s: ServerStats, past: seq<PlayerCount>,
                   w: World, now: int, onlineDefault: bool): RowOutcome
  {
    var stamped := Refreshed(row, s, now);
    var sample := PlayerCount(now, onlineDefault, s.online, s.max, s.players);
    RowOutcome(stamped, Some(sample), EditFor(row.channelId, msgId, stamped, sample, past, s.running, w.collate, now))
  }

  /** The edit of a refresh: the embed of the stamped row with its new
      sample, and the day's chart; none when the embed cannot be built. */
  function EditFor(channelId: string, msgId: string, stamped: StatusRow, sample: PlayerCount, past: seq<PlayerCount>,
                   running: bool, collate: (string, string) -> bool, now: int): (e: Option<EditRequest>)
    ensures e.Some? ==> e.value.channelId == channelId && e.value.messageId == msgId
    ensures e.Some? ==> e.value.chart == DayChart(past, sample, running, stamped.showMaxPlayers)
    ensures e.Some? <==> Embed.EmbedOf(Embed.StatusView(stamped, [sample]), None, now, collate).Ok?
    ensures e.Some? ==> e.value.embed == Embed.EmbedOf(Embed.StatusView(stamped, [sample]), None, now, collate).value
  {
    var chart := DayChart(past, sample, running, stamped.showMaxPlayers);
    var embed := Embed.EmbedOf(Embed.StatusView(stamped, [sample]), None, now, collate);
    if embed.Ok? then Some(EditRequest(channelId, msgId, embed.value, chart)) else None
  }

  /** The message a due row's update goes to, or None when the row is left
      to the next tick: its channel is not a usable text channel, its stored
      message does not fetch, or (with no stored id) the bot wrote none of
      the channel's newest 30 messages. */
  function Target(row: StatusRow, w: World): (r: Option<string>)
    ensures r.Some? ==> w.usable(row.channelId)
    ensures Truthy(row.messageId) ==>
      r == (if w.usable(row.channelId) && w.fetches(row.channelId, row.messageId.value)
            then row.messageId else None)
    ensures !Truthy(row.messageId) && r.Some? ==>
      NewestBotMessage(w.latest(row.channelId)).Some? && r.value == NewestBotMessage(w.latest(row.channelId)).value.id
  {
    if !w.usable(row.channelId) then None
    else if Truthy(row.messageId) then
      if w.fetches(row.channelId, row.messageId.value) then row.messageId else None
    else
      match NewestBotMessage(w.latest(row.channelId))
      case None => None
      case Some(m) => Some(m.id)
  }

  /** A due row. A message found by the scan is recorded before the stats
      are asked for; a stats reply other than "ok" leaves the row to the
      next tick. `past` is the row's stored samples. */
  function ProcessRow(row: StatusRow, past: seq<PlayerCount>, w: World, now: int, onlineDefault: bool)
    : (out: RowOutcome)
    ensures out.row.id == row.id
  {
    match Target(row, w)
    case None => RowOutcome(row, None, None)
    case Some(msgId) =>
      var resolved := row.(messageId := Some(msgId));
      match w.stats(row.serverId)
      case StatsOk(s) => Success(resolved, msgId, s, past, w, now, onlineDefault)
      case _ => RowOutcome(resolved, None, None)
  }

  /** A row is stamped and sampled together, or neither; a row that is not
      refreshed keeps every column but possibly the scanned message id. */
  lemma ProcessRowStampsIffSampled(row: StatusRow, past: seq<PlayerCount>, w: World, now: int, onlineDefault: bool)
    ensures var out := ProcessRow(row, past, w, now, onlineDefault);
      && (out.sample.Some? ==> out.row.updatedAt == now && out.sample.value.createdAt == now && !out.row.maintenance)
      && (out.sample.None? ==> out.row == row.(messageId := out.row.messageId))
      && (out.edit.Some? ==> out.sample.Some?)
  {
  }

  /** A stored message id is never replaced; a missing one is replaced only
      by the newest bot message the scan finds. */
  lemma ProcessRowMessageId(row: StatusRow, past: seq<PlayerCount>, w: World, now: int, onlineDefault: bool)
    ensures var out := ProcessRow(row, past, w, now, onlineDefault);
      && (Truthy(row.messageId) ==> out.row.messageId == row.messageId)
      && (!Truthy(row.messageId) && out.row.messageId != row.messageId ==>
            var m := NewestBotMessage(w.latest(row.channelId));
            m.Some? && out.row.messageId == Some(m.value.id))
      && (out.edit.Some? ==> out.row.messageId == Some(out.edit.value.messageId)
                             && out.edit.value.channelId == row.channelId)
  {
  }

  /** A row is refreshed only when its channel is usable, its message is
      resolved and the stats reply is "ok". */
  lemma ProcessRowNeedsEverything(row: StatusRow, past: seq<PlayerCount>, w: World, now: int, onlineDefault: bool)
    ensures ProcessRow(row, past, w, now, onlineDefault).sample.Some? <==>
      && w.usable(row.channelId)
      && (if Truthy(row.messageId) then w.fetches(row.channelId, row.messageId.value)
          else NewestBotMessage(w.latest(row.channelId)).Some?)
      && w.stats(row.serverId).StatsOk?
  {
  }

  /** The chart sent with a refresh is the day chart of the stored sample,
      drawn with the running flag and show-max setting just written. */
  lemma RefreshChart(row: StatusRow, past: seq<PlayerCount>, w: World, now: int, onlineDefault: bool)
    requires ProcessRow(row, past, w, now, onlineDefault).edit.Some?
    ensures var out := ProcessRow(row, past, w, now, onlineDefault);
      && out.sample.Some?
      && out.edit.value.chart == DayChart(past, out.sample.value, out.row.online, out.row.showMaxPlayers)
  {
  }

  /** A sampled row's message gets an edit exactly when the embed of the
      stamped row with its new sample builds, and the edit carries that
      embed. */
  lemma RefreshEmbed(row: StatusRow, past: seq<PlayerCount>, w: World, now: int, onlineDefault: bool)
    requires ProcessRow(row, past, w, now, onlineDefault).sample.Some?
    ensures var out := ProcessRow(row, past, w, now, onlineDefault);
      var embed := Embed.EmbedOf(Embed.StatusView(out.row, [out.sample.value]), None, now, w.collate);
      && (out.edit.Some? <==> embed.Ok?)
      && (out.edit.Some? ==> out.edit.value.embed == embed.value)
  {
  }

  // ---------------------------------------------------------------------
  // The table and the tick.

  /** The `playerCount` table, grouped by status id: each status's samples
      in the order they were stored. */
  type SampleTable = map<int, seq<PlayerCount>>

  /** The samples of one status. */
  function SamplesOf(samples: SampleTable, id: int): seq<PlayerCount>
  {
    if id in samples then samples[id] else []
  }

  /** Store `c` for status `id`: it becomes that status's newest sample and
      no other status's samples change. */
  function AddSample(samples: SampleTable, id: int, c: PlayerCount): (r: SampleTable)
    ensures SamplesOf(r, id) == SamplesOf(samples, id) + [c]
    ensures forall other | other != id :: SamplesOf(r, other) == SamplesOf(samples, other)
  {
    samples[id := SamplesOf(samples, id) + [c]]
  }

  predicate DistinctIds(rows: seq<StatusRow>)
  {
    forall i, j | 0 <= i < j < |rows| :: rows[i].id != rows[j].id
  }

  datatype TableState = TableState(rows: seq<StatusRow>, samples: SampleTable, edits: seq<EditRequest>)


  /** What the tick does to a row, given the row and its stored samples. */
  function Outcome(row: StatusRow, past: seq<PlayerCount>, w: World, now: int,
                   env: Option<string>, onlineDefault: bool): (out: RowOutcome)
    ensures out.row.id == row.id
  {
    if Due(row, now, env) then ProcessRow(row, past, w, now, onlineDefault)
    else RowOutcome(row, None, None)
  }

  /** A refresh of one row, as a function of the row and its stored
      samples; the loop below is stated for any such refresh. */
  type RowUpdate = (StatusRow, seq<PlayerCount>) -> RowOutcome

  /** The updater's refresh, for one tick. */
  function Updater(w: World, now: int, env: Option<string>, onlineDefault: bool): RowUpdate
  {
    (row: StatusRow, past: seq<PlayerCount>) => Outcome(row, past, w, now, env, onlineDefault)
  }

  ghost predicate KeepsIds(f: RowUpdate)
  {
    forall row, past :: f(row, past).row.id == row.id
  }

  lemma UpdaterKeepsIds(w: World, now: int, env: Option<string>, onlineDefault: bool)
    ensures KeepsIds(Updater(w, now, env, onlineDefault))
  {
  }

  /** What the refresh does to row `i` of a table with these samples. */
  function OutcomeAt(rows: seq<StatusRow>, samples: SampleTable, i: nat, f: RowUpdate): RowOutcome
    requires i < |rows|
  {
    f(rows[i], SamplesOf(samples, rows[i].id))
  }

  /** The samples after row `id`'s result is stored. */
  function Stored(samples: SampleTable, id: int, out: RowOutcome): SampleTable
  {
    if out.sample.Some? then AddSample(samples, id, out.sample.value) else samples
  }

  function NewEdits(out: RowOutcome): seq<EditRequest>
  {
    if out.edit.Some? then [out.edit.value] else []
  }

  /** The loop body for the `i`-th row of the snapshot. */
  function Step(st: TableState, i: nat, f: RowUpdate): (r: TableState)
    requires i < |st.rows|
    ensures |r.rows| == |st.rows|
  {
    var out := OutcomeAt(st.rows, st.samples, i, f);
    TableState(st.rows[i := out.row], Stored(st.samples, st.rows[i].id, out), st.edits + NewEdits(out))
  }

  lemma StepShape(st: TableState, i: nat, out: RowOutcome, f: RowUpdate)
    requires i < |st.rows| && out == OutcomeAt(st.rows, st.samples, i, f)
    ensures Step(st, i, f)
         == TableState(st.rows[i := out.row], Stored(st.samples, st.rows[i].id, out), st.edits + NewEdits(out))
  {
  }

  /** The state after the loop has handled the first `k` rows. */
  function RunTo(init: TableState, k: nat, f: RowUpdate): (r: TableState)
    requires k <= |init.rows|
    ensures |r.rows| == |init.rows|
  {
    if k == 0 then init else Step(RunTo(init, k - 1, f), k - 1, f)
  }

  lemma RunToStep(init: TableState, i: nat, f: RowUpdate)
    requires i < |init.rows|
    ensures RunTo(init, i + 1, f) == Step(RunTo(init, i, f), i, f)
  {
  }

  /** The loop never changes a row's id. */
  lemma {:induction false} RunToKeepsIds(init: TableState, k: nat, f: RowUpdate)
    requires k <= |init.rows| && KeepsIds(f)
    ensures forall j | 0 <= j < |init.rows| :: RunTo(init, k, f).rows[j].id == init.rows[j].id
  {
    if k > 0 {
      RunToKeepsIds(init, k - 1, f);
    }
  }

  /** Row `j` after the loop has handled the first `k` rows: its own result
      if reached (or untouched if not), and its status's samples are the
      stored ones plus at most its own new sample. */
  predicate RowwiseAt(init: TableState, st: TableState, k: nat, j: nat, f: RowUpdate)
    requires j < |init.rows| == |st.rows|
  {
    var res := OutcomeAt(init.rows, init.samples, j, f);
    && st.rows[j] == (if j < k then res.row else init.rows[j])
    && SamplesOf(st.samples, init.rows[j].id) == SamplesOf(init.samples, init.rows[j].id)
         + (if j < k && res.sample.Some? then [res.sample.value] else [])
  }

  /** Rows do not interfere: each row after `k` steps is as if it were
      alone in the table. */
  lemma {:induction false} RunToRowwise(init: TableState, k: nat, f: RowUpdate)
    requires k <= |init.rows| && DistinctIds(init.rows)
    ensures forall j | 0 <= j < |init.rows| :: RowwiseAt(init, RunTo(init, k, f), k, j, f)
  {
    var st := RunTo(init, k, f);
    if k == 0 {
      forall j | 0 <= j < |init.rows|
        ensures RowwiseAt(init, st, k, j, f)
      {
        assert SamplesOf(init.samples, init.rows[j].id) + [] == SamplesOf(init.samples, init.rows[j].id);
      }
    } else {
      RunToRowwise(init, k - 1, f);
      var prev := RunTo(init, k - 1, f);
      assert st == Step(prev, k - 1, f);
      forall j | 0 <= j < |init.rows|
        ensures RowwiseAt(init, st, k, j, f)
      {
        RowwiseStep(init, prev, k - 1, j, f);
      }
    }
  }

  /** One step of the induction: row `i` sees its stored row and samples,
      and its new sample is nobody else's. */
  lemma RowwiseStep(init: TableState, prev: TableState, i: nat, j: nat, f: RowUpdate)
    requires i < |init.rows| == |prev.rows| && j < |init.rows| && DistinctIds(init.rows)
    requires RowwiseAt(init, prev, i, i, f)
    requires RowwiseAt(init, prev, i, j, f)
    ensures RowwiseAt(init, Step(prev, i, f), i + 1, j, f)
  {
    var res := OutcomeAt(init.rows, init.samples, i, f);
    var id := init.rows[i].id;
    assert prev.rows[i] == init.rows[i];
    assert SamplesOf(prev.samples, id) == SamplesOf(init.samples, id) + [];
    assert SamplesOf(init.samples, id) + [] == SamplesOf(init.samples, id);
    assert OutcomeAt(prev.rows, prev.samples, i, f) == res;
    var st := Step(prev, i, f);
    assert st.rows == prev.rows[i := res.row];
    assert st.samples == Stored(prev.samples, init.rows[i].id, res);
    AppendOwnSample(prev.samples, init.rows, i, j, res);
  }

  /** Storing row `i`'s new sample changes no other status's samples. */
  lemma AppendOwnSample(samples: SampleTable, rows: seq<StatusRow>, i: nat, j: nat, res: RowOutcome)
    requires i < |rows| && j < |rows| && DistinctIds(rows)
    ensures SamplesOf(Stored(samples, rows[i].id, res), rows[j].id) == SamplesOf(samples, rows[j].id)
        + (if j == i && res.sample.Some? then [res.sample.value] else [])
  {
    if res.sample.Some? {
      assert j != i ==> rows[j].id != rows[i].id;
    } else {
      assert SamplesOf(samples, rows[j].id) + [] == SamplesOf(samples, rows[j].id);
    }
  }

  /** The updater's table: status rows and their samples. */
  class StatusTable {
    var rows: seq<StatusRow>
    var samples: SampleTable
    /** The default of the samples' `online` column. */
    const onlineDefault: bool

    ghost predicate Valid()
      reads this
    {
      DistinctIds(rows)
    }

    constructor (rows0: seq<StatusRow>, samples0: SampleTable, onlineDefault: bool)
      requires DistinctIds(rows0)
      ensures Valid() && rows == rows0 && samples == samples0 && this.onlineDefault == onlineDefault
    {
      rows := rows0;
      samples := samples0;
      this.onlineDefault := onlineDefault;
    }

    /** The state as a value, for the specifications. */
    function State(edits: seq<EditRequest>): TableState
      reads this
    {
      TableState(rows, samples, edits)
    }

    /** One run of the scheduled task: every row of the snapshot, in order. */
    method Tick(w: World, now: int, env: Option<string>) returns (edits: seq<EditRequest>)
      requires Valid()
      modifies this
      ensures Valid()
      ensures State(edits) == RunTo(old(State([])), |old(rows)|, Updater(w, now, env, onlineDefault))
    {
      ghost var init := State([]);
      ghost var f := Updater(w, now, env, onlineDefault);
      edits := [];
      var i := 0;
      while i < |rows|
        invariant 0 <= i <= |rows| == |init.rows|
        invariant State(edits) == RunTo(init, i, f)
      {
        ghost var before := State(edits);
        var out := RefreshRow(i, w, now, env);
        edits := edits + NewEdits(out);
        StepShape(before, i, out, f);
        RunToStep(init, i, f);
        i := i + 1;
      }
      UpdaterKeepsIds(w, now, env, onlineDefault);
      RunToKeepsIds(init, i, f);
    }

    /** The loop body: refresh row `i` if it is due. */
    method RefreshRow(i: nat, w: World, now: int, env: Option<string>) returns (out: RowOutcome)
      requires i < |rows|
      modifies this
      ensures out == Outcome(old(rows)[i], SamplesOf(old(samples), old(rows)[i].id), w, now, env, onlineDefault)
      ensures rows == old(rows)[i := out.row]
      ensures samples == Stored(old(samples), old(rows)[i].id, out)
    {
      var row := rows[i];
      out := RowOutcome(row, None, None);
      if !Due(row, now, env) {
        return;
      }
      var target := Target(row, w);
      if target.None? {
        return;
      }
      var msgId := target.value;
      var resolved := row.(messageId := Some(msgId));
      rows := rows[i := resolved];
      var reply := w.stats(row.serverId);
      if !reply.StatsOk? {
        out := RowOutcome(resolved, None, None);
        return;
      }
      out := Record(i, msgId, reply.stats, w, now);
    }
    /** A successful refresh of row `i`, whose message is `msgId`. */
    method Record(i: nat, msgId: string, s: ServerStats, w: World, now: int) returns (out: RowOutcome)
      requires i < |rows|
      modifies this
      ensures out == Success(old(rows)[i], msgId, s, SamplesOf(old(samples), old(rows)[i].id), w, now, onlineDefault)
      ensures rows == old(rows)[i := out.row]
      ensures samples == Stored(old(samples), old(rows)[i].id, out)
    {
      var row := rows[i];
      var stamped := Refreshed(row, s, now);
      var sample := PlayerCount(now, onlineDefault, s.online, s.max, s.players);
      ghost var past := SamplesOf(samples, row.id);
      rows := rows[i := stamped];
      samples := AddSample(samples, row.id, sample);
      var stored := SamplesOf(samples, row.id);
      assert stored == past + [sample] && stored[..|stored| - 1] == past && stored[|stored| - 1] == sample;
      var edit := ComposeEdit(row.channelId, msgId, stamped, stored, s.running, w.collate, now);
      assert edit == EditFor(row.channelId, msgId, stamped, sample, past, s.running, w.collate, now);
      out := RowOutcome(stamped, Some(sample), edit);
    }
  }

  /** Draw the chart from the status's stored samples, newest last, and
      build the embed. */
  method ComposeEdit(channelId: string, msgId: string, stamped: StatusRow, stored: seq<PlayerCount>,
                     running: bool, collate: (string, string) -> bool, now: int) returns (edit: Option<EditRequest>)
    requires |stored| > 0
    ensures edit == EditFor(channelId, msgId, stamped, stored[|stored| - 1], stored[..|stored| - 1], running, collate, now)
  {
    var sample := stored[|stored| - 1];
    var chart := DrawDayChart(stored, running, stamped.showMaxPlayers);
    var embed := Embed.CreateEmbed(Embed.StatusView(stamped, [sample]), None, now, collate);
    edit := if embed.Ok? then Some(EditRequest(channelId, msgId, embed.value, chart)) else None;
  }

  /** The chart drawn after storing a sample: the status's stored samples,
      newest last, are read back for the 24 hours up to it. */
  method DrawDayChart(stored: seq<PlayerCount>, running: bool, showMax: bool) returns (chart: Chart.LineChart)
    requires |stored| > 0
    ensures chart == DayChart(stored[..|stored| - 1], stored[|stored| - 1], running, showMax)
  {
    var past, sample := stored[..|stored| - 1], stored[|stored| - 1];
    assert stored == past + [sample];
    var data := Since(stored, sample.createdAt - DayMs);
    DayChartUnfold(past, sample, running, showMax);
    chart := DrawChart(data, running, showMax, sample.maxPlayers);
  }

  /** The chart of the last day's samples: sorted oldest first into a
      fresh array, which `createPlayerCountChart` sorts again. */
  method DrawChart(data: seq<PlayerCount>, running: bool, showMax: bool, max: int) returns (chart: Chart.LineChart)
    requires showMax || |data| > 0
    ensures chart == Chart.ChartOf(Sort(data, Chart.ByTime()), Chart.Flag(running), (showMax, if showMax then max else -1))
  {
    var window := Sort(data, Chart.ByTime());
    var counts := new PlayerCount[|window|](k requires 0 <= k < |window| => window[k]);
    assert counts[..] == window;
    chart := Chart.CreatePlayerCountChart(counts, Chart.Flag(running), (showMax, if showMax then max else -1));
    Chart.ByTimeIsTotalPreorder();
    SortIdempotent(data, Chart.ByTime());
  }

  // ---------------------------------------------------------------------
  // What a tick promises.

  /** After a tick every row is its own result: rows that were not due are
      untouched, and each status gains at most one sample, its own. */
  lemma TickRowwise(init: TableState, w: World, now: int, env: Option<string>, onlineDefault: bool)
    requires DistinctIds(init.rows)
    ensures var after := RunTo(init, |init.rows|, Updater(w, now, env, onlineDefault));
      forall j | 0 <= j < |init.rows| ::
        var res := Outcome(init.rows[j], SamplesOf(init.samples, init.rows[j].id), w, now, env, onlineDefault);
        && after.rows[j] == res.row
        && SamplesOf(after.samples, init.rows[j].id)
           == SamplesOf(init.samples, init.rows[j].id) + (if res.sample.Some? then [res.sample.value] else [])
  {
    var f := Updater(w, now, env, onlineDefault);
    RunToRowwise(init, |init.rows|, f);
    var after := RunTo(init, |init.rows|, f);
    forall j | 0 <= j < |init.rows|
      ensures var res := Outcome(init.rows[j], SamplesOf(init.samples, init.rows[j].id), w, now, env, onlineDefault);
        && after.rows[j] == res.row
        && SamplesOf(after.samples, init.rows[j].id)
           == SamplesOf(init.samples, init.rows[j].id) + (if res.sample.Some? then [res.sample.value] else [])
    {
      assert RowwiseAt(init, after, |init.rows|, j, f);
    }
  }

  /** A row that was not due is left exactly as it was, with no new sample. */
  lemma NotDueUntouched(init: TableState, j: nat, w: World, now: int, env: Option<string>, onlineDefault: bool)
    requires DistinctIds(init.rows) && j < |init.rows| && !Due(init.rows[j], now, env)
    ensures var after := RunTo(init, |init.rows|, Updater(w, now, env, onlineDefault));
      after.rows[j] == init.rows[j]
      && SamplesOf(after.samples, init.rows[j].id) == SamplesOf(init.samples, init.rows[j].id)
  {
    TickRowwise(init, w, now, env, onlineDefault);
  }

  /** A due row that could not be refreshed keeps its `updatedAt` and stays
      due at every later tick; a refreshed one is stamped and rests for one
      interval. */
  lemma RetryOrRest(init: TableState, j: nat, w: World, now: int, env: Option<string>, onlineDefault: bool)
    requires DistinctIds(init.rows) && j < |init.rows| && Due(init.rows[j], now, env)
    ensures var after := RunTo(init, |init.rows|, Updater(w, now, env, onlineDefault));
      var res := Outcome(init.rows[j], SamplesOf(init.samples, init.rows[j].id), w, now, env, onlineDefault);
      && (res.sample.None? ==> forall later | later >= now :: Due(after.rows[j], later, env))
      && (res.sample.Some? ==>
            && after.rows[j].updatedAt == now
            && forall later | later < now + IntervalMs(env) :: !Due(after.rows[j], later, env))
  {
    TickRowwise(init, w, now, env, onlineDefault);
    ProcessRowStampsIffSampled(init.rows[j], SamplesOf(init.samples, init.rows[j].id), w, now, onlineDefault);
  }
}
