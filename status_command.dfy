/** The `/crafty` slash command: guards, one permission flag per
    subcommand, option resolution, and what each subcommand sends to Discord
    and writes to the database. Discord, the management API and the
    database are answers in a `World` and a `Db` snapshot; what the handler
    does with them is a list of effects and one answer to the user. */
module StatusCommand {
  import opened Base
  import opened Records
  import opened Sorting
  import opened Consts
  import Chart
  import Embed

  // ---------------------------------------------------------------------
  // Inputs.

  /** The subcommand and its options as Discord delivers them (`None` for
      an option not given). */
  datatype Subcommand =
    | Create(uuid: Option<string>, javaIp: Option<string>, bedrockIp: Option<string>, showMax: Option<bool>)
    | Modify(messageId: Option<string>, javaIp: Option<string>, bedrockIp: Option<string>,
             showMax: Option<bool>, moveTo: Option<string>)
    | Delete(messageId: Option<string>)
    | Purge(uuid: Option<string>, confirm: Option<string>)
    | Unknown(name: string)

  /** A `messageEmbed` row: a message showing a status. `serverId` is the
      status it belongs to, if any. */
  datatype EmbedRow = EmbedRow(messageId: string, channelId: string, showMaxPlayers: bool, serverId: Option<string>)

  /** A `status` row as this command reads it. */
  datatype StatusRecord = StatusRecord(
    serverId: string,
    serverName: string,
    javaIp: Option<string>,
    bedrockIp: Option<string>,
    bedrockPort: Option<string>,
    playerCounts: seq<PlayerCount>)

  /** The database snapshot the handler queries. */
  datatype Db = Db(embeds: seq<EmbedRow>, statuses: map<string, StatusRecord>)

  /** What Discord and the management API answer: whether the command came
      from a guild and a sendable channel, the caller's user record, the
      stats endpoint per server id, which channels fetch as sendable, which
      messages fetch, which are deletable and delete without error, which
      channels accept a send, and the id a send there produces. */
  datatype World = World(
    inGuild: bool,
    channelSendable: bool,
    hereChannel: string,
    user: Option<DiscordUser>,
    stats: string -> StatsReply,
    usable: string -> bool,
    present: (string, string) -> bool,
    deletable: (string, string) -> bool,
    deleteOk: (string, string) -> bool,
    sendOk: string -> bool,
    sentId: string -> string,
    now: int,
    collate: (string, string) -> bool)

  // ---------------------------------------------------------------------
  // Outputs.

  /** The user-visible answer. `FailedAfterDefer` is the catch block's
      `interaction.reply`, issued after the reply was already deferred;
      `Threw` is an error that leaves the handler. */
  datatype Answer =
    | Reply(content: string, ephemeral: bool)
    | EditReply(content: string)
    | FailedAfterDefer(content: string)
    | Threw(error: string)

  /** The columns a create or modify writes to the status row. `None`
      leaves a column unwritten (the value was `undefined`). `maintenance`
      is written every time. */
  datatype StatusData = StatusData(
    serverName: string,
    serverVersion: string,
    javaIp: Option<string>,
    bedrockIp: Option<string>,
    bedrockPort: Option<string>,
    maintenance: bool)

  /** What the handler does to Discord and the database. `UpsertStatus`
      links the new message to the status; its `showMaxIfExisting` is
      written only when the status row already exists, since the create
      branch of the upsert leaves the message's flag to its column default. */
  datatype Effect =
    | Send(channelId: string, embed: Embed.Embed, chart: Chart.LineChart)
    | Edit(channelId: string, messageId: string, embed: Embed.Embed, chart: Chart.LineChart)
    | DeleteMessage(channelId: string, messageId: string)
    | UpsertStatus(serverId: string, data: StatusData, sample: PlayerCount,
                   messageId: string, channelId: string, showMaxIfExisting: bool)
    | UpdateEmbedRow(messageId: string, newMessageId: string, newChannelId: string,
                     showMax: bool, data: StatusData, sample: PlayerCount)
    | DeleteEmbedRow(messageId: string)
    | DeleteStatus(serverId: string)

  datatype Outcome = Outcome(effects: seq<Effect>, answer: Answer)

  const NoAccess := "You do not have access to this command"
  const ServerNotFound := "Server not found, or an error occurred"
  const NotFound := "Status embed not found"
  const NoMessageId := "No message ID provided"
  const NoUuid := "No UUID provided"
  const Updated := "Status embed updated"
  const Recreated := "Original status embed could not be found. A new status embed was created"
  const PurgePhrase := "confirm deletion of the data"

  // ---------------------------------------------------------------------
  // Option resolution.

  predicate VersionChar(c: char)
  {
    IsDigit(c) || c == '.'
  }

  /** `version.replace(/[^0-9\.]/gm, "")`. */
  function SanitizeVersion(v: string): (r: string)
    ensures |r| <= |v|
    ensures forall i | 0 <= i < |r| :: VersionChar(r[i])
  {
    if v == [] then []
    else (if VersionChar(v[0]) then [v[0]] else []) + SanitizeVersion(v[1..])
  }

  /** The filter works character by character, so it distributes over
      concatenation. */
  lemma {:induction false} SanitizeConcat(a: string, b: string)
    ensures SanitizeVersion(a + b) == SanitizeVersion(a) + SanitizeVersion(b)
  {
    if a == [] {
      assert a + b == b;
    } else {
      var head := if VersionChar(a[0]) then [a[0]] else [];
      assert (a + b)[0] == a[0];
      assert (a + b)[1..] == a[1..] + b;
      SanitizeConcat(a[1..], b);
      calc {
        SanitizeVersion(a + b);
        head + SanitizeVersion(a[1..] + b);
        head + (SanitizeVersion(a[1..]) + SanitizeVersion(b));
        (head + SanitizeVersion(a[1..])) + SanitizeVersion(b);
        SanitizeVersion(a) + SanitizeVersion(b);
      }
    }
  }

  /** Digits and dots are all kept, in order. */
  lemma {:induction false} SanitizeKeepsVersionText(v: string)
    requires forall i | 0 <= i < |v| :: VersionChar(v[i])
    ensures SanitizeVersion(v) == v
  {
    if v != [] {
      SanitizeKeepsVersionText(v[1..]);
    }
  }

  /** Everything else is dropped. */
  lemma {:induction false} SanitizeDropsOthers(v: string)
    requires forall i | 0 <= i < |v| :: !VersionChar(v[i])
    ensures SanitizeVersion(v) == []
  {
    if v != [] {
      SanitizeDropsOthers(v[1..]);
    }
  }

  /** Sanitising twice is sanitising once. */
  lemma SanitizeIdempotent(v: string)
    ensures SanitizeVersion(SanitizeVersion(v)) == SanitizeVersion(v)
  {
    SanitizeKeepsVersionText(SanitizeVersion(v));
  }

  /** A typical version string loses its build label. */
  lemma SanitizeExample()
    ensures SanitizeVersion("1.20.4 (Paper)") == "1.20.4"
  {
    var kept, dropped := "1.20.4", " (Paper)";
    assert kept + dropped == "1.20.4 (Paper)";
    SanitizeConcat(kept, dropped);
    ExampleParts();
  }

  lemma ExampleParts()
    ensures SanitizeVersion("1.20.4") == "1.20.4"
    ensures SanitizeVersion(" (Paper)") == []
  {
    SanitizeKeepsVersionText("1.20.4");
    SanitizeDropsOthers(" (Paper)");
  }

  /** `s.split(c)` for a one-character separator: the pieces between the
      separators, one more than there are separators. */
  function SplitOn(s: string, c: char): (r: seq<string>)
    ensures |r| >= 1
    ensures forall i | 0 <= i < |r| :: c !in r[i]
  {
    if s == [] then [""]
    else
      var rest := SplitOn(s[1..], c);
      if s[0] == c then [""] + rest
      else [[s[0]] + rest[0]] + rest[1..]
  }

  lemma JoinCons(x: string, xs: seq<string>, sep: string)
    requires xs != []
    ensures Join([x] + xs, sep) == x + sep + Join(xs, sep)
  {
    assert ([x] + xs)[1..] == xs;
  }

  /** Joining the pieces with the separator gives back the text. */
  lemma {:induction false} SplitOnJoin(s: string, c: char)
    ensures Join(SplitOn(s, c), [c]) == s
  {
    if s != [] {
      var rest := SplitOn(s[1..], c);
      SplitOnJoin(s[1..], c);
      if s[0] == c {
        JoinCons("", rest, [c]);
      } else if |rest| == 1 {
        assert SplitOn(s, c) == [[s[0]] + rest[0]];
      } else {
        JoinCons([s[0]] + rest[0], rest[1..], [c]);
        assert rest == [rest[0]] + rest[1..];
        JoinCons(rest[0], rest[1..], [c]);
      }
    }
  }

  /** Text free of the separator is one piece. */
  lemma {:induction false} SplitOnFree(a: string, c: char)
    requires c !in a
    ensures SplitOn(a, c) == [a]
  {
    if a != [] {
      assert c !in a[1..];
      SplitOnFree(a[1..], c);
      assert [a[0]] + a[1..] == a;
    }
  }

  /** A separator-free head followed by the separator is the first piece. */
  lemma {:induction false} SplitOnHead(a: string, c: char, rest: string)
    requires c !in a
    ensures SplitOn(a + [c] + rest, c) == [a] + SplitOn(rest, c)
  {
    if a == [] {
      assert ([c] + rest)[1..] == rest;
    } else {
      var t := a + [c] + rest;
      assert t[0] == a[0] && t[1..] == a[1..] + [c] + rest;
      assert c !in a[1..];
      SplitOnHead(a[1..], c, rest);
      assert [a[0]] + a[1..] == a;
    }
  }

  /** The host part of the Bedrock option, `split(":")[0]`. */
  function HostPart(opt: Option<string>): (r: Option<string>)
    ensures opt.Some? <==> r.Some?
    ensures r.Some? ==> ':' !in r.value
  {
    if opt.None? then None else Some(SplitOn(opt.value, ':')[0])
  }

  /** The port part, `split(":")[1]`: undefined without a colon. */
  function PortPart(opt: Option<string>): (r: Option<string>)
    ensures r.Some? ==> ':' !in r.value
  {
    if opt.None? then None
    else
      var pieces := SplitOn(opt.value, ':');
      if |pieces| > 1 then Some(pieces[1]) else None
  }

  /** `host:port` with colon-free parts splits back into the two; a bare
      host has no port. */
  lemma BedrockRoundTrip(host: string, port: string)
    requires ':' !in host && ':' !in port
    ensures HostPart(Some(host + ":" + port)) == Some(host)
    ensures PortPart(Some(host + ":" + port)) == Some(port)
    ensures HostPart(Some(host)) == Some(host) && PortPart(Some(host)).None?
  {
    SplitOnHead(host, ':', port);
    SplitOnFree(port, ':');
    SplitOnFree(host, ':');
  }

  /** A port given twice, `h:p:q`, keeps only the text between the first
      two colons. */
  lemma BedrockExtraColonDropped()
    ensures PortPart(Some("h:p:q")) == Some("p")
  {
    SplitOnHead("h", ':', "p:q");
    SplitOnHead("p", ':', "q");
  }

  /** `get("show-max-players")?.value ? value === true : false`. */
  function ShowMaxOnCreate(opt: Option<bool>): (r: bool)
    ensures r <==> opt == Some(true)
  {
    if opt.Some? && opt.value then true else false
  }

  /** `showMaxPlayers?.value ? value === true : stored`: only an explicit
      `true` changes the flag; `false` and absent both keep the stored one. */
  function ShowMaxOnModify(opt: Option<bool>, stored: bool): (r: bool)
    ensures opt == Some(true) ==> r
    ensures opt != Some(true) ==> r == stored
  {
    if opt.Some? && opt.value then true else stored
  }

  /** Modify's "nothing to do" test: no truthy java-ip and neither
      show-max-players nor move-to given. The Bedrock option is not looked at. */
  predicate NoOptions(c: Subcommand)
    requires c.Modify?
  {
    !Truthy(c.javaIp) && c.showMax.None? && c.moveTo.None?
  }

  /** The `messageEmbed` row with this id. */
  function FindEmbedRow(rows: seq<EmbedRow>, id: string): (r: Option<EmbedRow>)
    ensures r.Some? ==> r.value in rows && r.value.messageId == id
    ensures r.None? ==> forall x | x in rows :: x.messageId != id
  {
    if rows == [] then None
    else if rows[0].messageId == id then Some(rows[0])
    else FindEmbedRow(rows[1..], id)
  }

  /** The messages of a status (`include: { messages: true }`), in stored
      order, which the body defines. */
  function MessagesOf(rows: seq<EmbedRow>, serverId: string): (r: seq<EmbedRow>)
    ensures forall x :: x in r <==> x in rows && x.serverId == Some(serverId)
  {
    if rows == [] then []
    else
      var rest := MessagesOf(rows[1..], serverId);
      assert forall x :: x in rows <==> x == rows[0] || x in rows[1..];
      if rows[0].serverId == Some(serverId) then [rows[0]] + rest else rest
  }
  /** A status's messages are taken from the stored rows, each as often as
      it is stored. */
  lemma {:induction false} MessagesOfSubMultiset(rows: seq<EmbedRow>, serverId: string)
    ensures multiset(MessagesOf(rows, serverId)) <= multiset(rows)
  {
    if rows != [] {
      MessagesOfSubMultiset(rows[1..], serverId);
      assert rows == [rows[0]] + rows[1..];
    }
  }


  /** The warning purge shows until the phrase is typed. */
  function PurgeWarning(serverName: string): seq<string>
  {
    [ "# :warning: WARNING :warning:",
      "This will completely **remove all data related to __" + serverName
        + "__ PERMANENTLY from this bot _(not Crafty Controller)_**!!",
      "This means that the collected player counts will be lost, all messages showing this server status will be deleted, and this data will become **irrecoverable**.",
      "",
      "If you meant to only delete one message, use `/crafty delete` instead!!",
      "",
      ConfirmLine ]
  }

  lemma OccursBetween(p: string, t: string, q: string)
    ensures OccursAt(p + t + q, t, |p|)
  {
    assert (p + t + q)[|p|..|p| + |t|] == t;
  }

  const ConfirmPrompt := "**To continue, rerun this command with the parameter `confirm` set to `"

  /** The warning's last line. */
  const ConfirmLine := ConfirmPrompt + PurgePhrase + "`.**"

  /** The warning's last line quotes the exact phrase purge waits for. */
  lemma WarningQuotesPhrase()
    ensures OccursAt(ConfirmLine, PurgePhrase, |ConfirmPrompt|)
  {
    OccursBetween(ConfirmPrompt, PurgePhrase, "`.**");
  }

  // ---------------------------------------------------------------------
  // The subcommands.

  /** The permission gate every subcommand opens with: no user record, then
      the subcommand's own flag. */
  function Gate(user: Option<DiscordUser>, cmd: Subcommand, verb: string): (a: Option<Answer>)
    ensures a.None? <==> user.Some? && Needed(cmd, user.value)
    ensures a.Some? ==> a.value.Reply? && a.value.ephemeral
  {
    if user.None? then Some(Reply(NoAccess, true))
    else if !Needed(cmd, user.value) then Some(Reply("You do not have permission to " + verb + " a status embed", true))
    else None
  }

  /** The sample a successful stats call describes (its row gets `createdAt`
      from the database clock, here `now`). */
  function SampleOf(s: ServerStats, now: int): PlayerCount
  {
    PlayerCount(now, s.running, s.online, s.max, s.players)
  }

  /** The chart create and modify draw: their `[flag, max]` pair lands in the
      `online` position and the axis parameter keeps its default. */
  function CommandChart(samples: seq<PlayerCount>, showMax: bool, max: int): Chart.LineChart
    requires |samples| > 0
  {
    Chart.ChartOf(Sort(samples, Chart.ByTime()), Chart.MaxPair(showMax, if showMax then max else -1), (false, -1))
  }

  /** `create` once the stats call has answered "ok". */
  function CreateWithStats(w: World, c: Subcommand, s: ServerStats): Outcome
    requires c.Create?
  {
    var showMax := ShowMaxOnCreate(c.showMax);
    var sample := SampleOf(s, w.now);
    var chart := CommandChart([sample], showMax, s.max);
    var javaIp := if Truthy(c.javaIp) then c.javaIp else None;
    var host := HostPart(c.bedrockIp);
    var bedrockIp := if Truthy(host) then host else None;
    var port := PortPart(c.bedrockIp);
    var version := SanitizeVersion(s.version);
    var st := Embed.EmbedStatus(s.serverName, javaIp, None, bedrockIp, if Truthy(port) then port else None, version, [sample]);
    var embed := Embed.EmbedOf(st, None, w.now, w.collate);
    if embed.Err? || !w.sendOk(w.hereChannel) then Outcome([], FailedAfterDefer("Failed to get server"))
    else
      Outcome(
        [ Send(w.hereChannel, embed.value, chart),
          UpsertStatus(s.serverId, StatusData(s.serverName, version, javaIp, bedrockIp, port, false), sample,
                       w.sentId(w.hereChannel), w.hereChannel, showMax) ],
        EditReply("Status embed created"))
  }

  function CreateRun(w: World, c: Subcommand): Outcome
    requires c.Create?
  {
    var gate := Gate(w.user, c, "create");
    if gate.Some? then Outcome([], gate.value)
    else if c.uuid.None? then Outcome([], Reply(NoUuid, true))
    else
      match w.stats(c.uuid.value)
      case StatsThrew => Outcome([], FailedAfterDefer("Failed to get server"))
      case StatsNotOk => Outcome([], EditReply(ServerNotFound))
      case StatsOk(s) => CreateWithStats(w, c, s)
  }

  /** The columns modify writes: given options win when truthy, stored values
      otherwise. */
  function ModifyData(c: Subcommand, status: StatusRecord, s: ServerStats): (d: StatusData)
    requires c.Modify?
    ensures d.javaIp == (if Truthy(c.javaIp) then c.javaIp else status.javaIp)
    ensures Truthy(HostPart(c.bedrockIp)) ==> d.bedrockIp == HostPart(c.bedrockIp)
    ensures !Truthy(HostPart(c.bedrockIp)) ==> d.bedrockIp == status.bedrockIp
    ensures Truthy(PortPart(c.bedrockIp)) ==> d.bedrockPort == PortPart(c.bedrockIp)
    ensures !Truthy(PortPart(c.bedrockIp)) ==> d.bedrockPort == status.bedrockPort
    ensures !d.maintenance
  {
    StatusData(s.serverName, SanitizeVersion(s.version), OrElse(c.javaIp, status.javaIp),
               OrElse(HostPart(c.bedrockIp), status.bedrockIp), OrElse(PortPart(c.bedrockIp), status.bedrockPort), false)
  }

  /** `modify` once the stats call has answered "ok": the message is moved,
      re-sent or edited, then its row and the status are updated. */
  function ModifyWithStats(w: World, c: Subcommand, row: EmbedRow, status: StatusRecord, s: ServerStats): Outcome
    requires c.Modify?
  {
    var showMax := ShowMaxOnModify(c.showMax, row.showMaxPlayers);
    var sample := SampleOf(s, w.now);
    var chart := CommandChart(Since(status.playerCounts, w.now - DayMs) + [sample], showMax, s.max);
    var data := ModifyData(c, status, s);
    var st := Embed.EmbedStatus(s.serverName, if Truthy(data.javaIp) then data.javaIp else None, None,
                                if Truthy(data.bedrockIp) then data.bedrockIp else None,
                                if Truthy(data.bedrockPort) then data.bedrockPort else None,
                                data.serverVersion, [sample]);
    var embed := Embed.EmbedOf(st, None, w.now, w.collate);
    if embed.Err? then Outcome([], FailedAfterDefer("Failed to update server"))
    else Deliver(w, c, row, embed.value, chart, showMax, data, sample)
  }

  /** Modify's delivery of the new embed: into the move-to channel (the old
      message is then deleted), as a new message where the old one no longer
      fetches, or as an edit of the old one; then the row update. */
  function Deliver(w: World, c: Subcommand, row: EmbedRow, embed: Embed.Embed, chart: Chart.LineChart,
                   showMax: bool, data: StatusData, sample: PlayerCount): (out: Outcome)
    requires c.Modify?
    ensures out.answer != EditReply(Recreated)
    ensures out.answer == EditReply(Updated) <==> out.effects != [] && LastEffect(out.effects).UpdateEmbedRow?
    ensures out.answer == EditReply(Updated) ==>
      LastEffect(out.effects) == UpdateEmbedRow(row.messageId, LastEffect(out.effects).newMessageId,
                                          LastEffect(out.effects).newChannelId, showMax, data, sample)
  {
    var failed := FailedAfterDefer("Failed to update server");
    assert |Recreated| != |Updated|;
    if !w.usable(row.channelId) then Outcome([], failed)
    else
      var found := w.present(row.channelId, row.messageId);
      if Truthy(c.moveTo) then
        var to := c.moveTo.value;
        if !w.usable(to) then
          Outcome([], EditReply("Channel not found. Please make sure I can see it, and I can send messages in it."))
        else if !w.sendOk(to) then Outcome([], EditReply("Failed to send message in new channel"))
        else if !found || !w.deleteOk(row.channelId, row.messageId) then
          Outcome([Send(to, embed, chart)], failed)
        else
          Outcome(
            [ Send(to, embed, chart),
              DeleteMessage(row.channelId, row.messageId),
              UpdateEmbedRow(row.messageId, w.sentId(to), to, showMax, data, sample) ],
            EditReply(Updated))
      else if !found then
        if !w.sendOk(row.channelId) then Outcome([], failed)
        else
          Outcome(
            [ Send(row.channelId, embed, chart),
              UpdateEmbedRow(row.messageId, w.sentId(row.channelId), row.channelId, showMax, data, sample) ],
            EditReply(Updated))
      else
        Outcome(
          [ Edit(row.channelId, row.messageId, embed, chart),
            UpdateEmbedRow(row.messageId, row.messageId, row.channelId, showMax, data, sample) ],
          EditReply(Updated))
  }

  /** Where a successful modify leaves the embed: sent to the move-to channel
      with the old message deleted, edited in place, or re-sent to its channel
      when the old message no longer fetches; the row then points at the
      message that now shows it. */
  lemma DeliverPlacement(w: World, c: Subcommand, row: EmbedRow, embed: Embed.Embed, chart: Chart.LineChart,
                         showMax: bool, data: StatusData, sample: PlayerCount)
    requires c.Modify? && w.usable(row.channelId)
    ensures var out := Deliver(w, c, row, embed, chart, showMax, data, sample);
      (Truthy(c.moveTo) && w.usable(c.moveTo.value) && w.sendOk(c.moveTo.value)
        && w.present(row.channelId, row.messageId) && w.deleteOk(row.channelId, row.messageId)) ==>
      out.effects == [ Send(c.moveTo.value, embed, chart), DeleteMessage(row.channelId, row.messageId),
                       UpdateEmbedRow(row.messageId, w.sentId(c.moveTo.value), c.moveTo.value, showMax, data, sample) ]
    ensures var out := Deliver(w, c, row, embed, chart, showMax, data, sample);
      (!Truthy(c.moveTo) && w.present(row.channelId, row.messageId)) ==>
      out.effects == [ Edit(row.channelId, row.messageId, embed, chart),
                       UpdateEmbedRow(row.messageId, row.messageId, row.channelId, showMax, data, sample) ]
    ensures var out := Deliver(w, c, row, embed, chart, showMax, data, sample);
      (!Truthy(c.moveTo) && !w.present(row.channelId, row.messageId) && w.sendOk(row.channelId)) ==>
      out.effects == [ Send(row.channelId, embed, chart),
                       UpdateEmbedRow(row.messageId, w.sentId(row.channelId), row.channelId, showMax, data, sample) ]
  {
  }

  /** A modify reports "updated" exactly in the three cases above. */
  lemma DeliverUpdatedWhen(w: World, c: Subcommand, row: EmbedRow, embed: Embed.Embed, chart: Chart.LineChart,
                           showMax: bool, data: StatusData, sample: PlayerCount)
    requires c.Modify? && w.usable(row.channelId)
    ensures var out := Deliver(w, c, row, embed, chart, showMax, data, sample);
      out.answer == EditReply(Updated) <==>
        ((Truthy(c.moveTo) && w.usable(c.moveTo.value) && w.sendOk(c.moveTo.value)
          && w.present(row.channelId, row.messageId) && w.deleteOk(row.channelId, row.messageId))
         || (!Truthy(c.moveTo) && w.present(row.channelId, row.messageId))
         || (!Truthy(c.moveTo) && !w.present(row.channelId, row.messageId) && w.sendOk(row.channelId)))
  {
    var out := Deliver(w, c, row, embed, chart, showMax, data, sample);
    assert out.answer == EditReply(Updated) <==> out.effects != [] && LastEffect(out.effects).UpdateEmbedRow?;
  }

  function ModifyRun(w: World, db: Db, c: Subcommand): Outcome
    requires c.Modify?
  {
    var gate := Gate(w.user, c, "modify");
    if gate.Some? then Outcome([], gate.value)
    else if !Truthy(c.messageId) then Outcome([], Reply(NoMessageId, true))
    else if NoOptions(c) then Outcome([], Reply("No options provided. Updating not necessary", true))
    else
      var row := FindEmbedRow(db.embeds, c.messageId.value);
      if row.None? || row.value.serverId.None? || row.value.serverId.value !in db.statuses then
        Outcome([], EditReply(NotFound))
      else
        var status := db.statuses[row.value.serverId.value];
        match w.stats(status.serverId)
        case StatsThrew => Outcome([], FailedAfterDefer("Failed to update server"))
        case StatsNotOk => Outcome([], EditReply(ServerNotFound))
        case StatsOk(s) => ModifyWithStats(w, c, row.value, status, s)
  }

  /** Stands for the error Discord gives when a message delete is
      rejected; delete does not catch it, so it leaves the handler. */
  const DeleteRejected := "Message delete rejected"

  function DeleteRun(w: World, db: Db, c: Subcommand): Outcome
    requires c.Delete?
  {
    var gate := Gate(w.user, c, "delete");
    if gate.Some? then Outcome([], gate.value)
    else if !Truthy(c.messageId) then Outcome([], Reply(NoMessageId, true))
    else
      var row := FindEmbedRow(db.embeds, c.messageId.value);
      if row.None? then Outcome([], Reply(NotFound, false))
      else if !w.usable(row.value.channelId) then Outcome([], Threw("Channel not found"))
      else if !w.present(row.value.channelId, row.value.messageId) then Outcome([], Reply(NotFound, false))
      else if !w.deleteOk(row.value.channelId, row.value.messageId) then Outcome([], Threw(DeleteRejected))
      else
        Outcome(
          [DeleteMessage(row.value.channelId, row.value.messageId), DeleteEmbedRow(row.value.messageId)],
          Reply("Status embed deleted", true))
  }

  /** The purge loop's result: the deletions made, and whether an unusable
      channel ended it with an error. */
  datatype PurgeResult = PurgeResult(deleted: seq<Effect>, threw: bool)

  /** The purge loop over a status's messages: an unusable channel throws,
      a missing, undeletable or failing message is skipped. */
  function PurgeRun(w: World, msgs: seq<EmbedRow>): (r: PurgeResult)
    ensures |r.deleted| <= |msgs|
    ensures forall e | e in r.deleted :: e.DeleteMessage?
  {
    if msgs == [] then PurgeResult([], false)
    else
      var m := msgs[|msgs| - 1];
      var before := PurgeRun(w, msgs[..|msgs| - 1]);
      if before.threw then before
      else if !w.usable(m.channelId) then PurgeResult(before.deleted, true)
      else if Deletes(w, m) then PurgeResult(before.deleted + [DeleteMessage(m.channelId, m.messageId)], false)
      else before
  }

  /** Whether the loop deletes this message: it fetches, is deletable and
      the delete succeeds. */
  predicate Deletes(w: World, m: EmbedRow)
  {
    w.present(m.channelId, m.messageId) && w.deletable(m.channelId, m.messageId) && w.deleteOk(m.channelId, m.messageId)
  }

  /** The deletions of messages in usable channels, in order. */
  function DeletedOf(w: World, msgs: seq<EmbedRow>): seq<Effect>
  {
    if msgs == [] then []
    else
      var m := msgs[|msgs| - 1];
      DeletedOf(w, msgs[..|msgs| - 1]) + (if Deletes(w, m) then [DeleteMessage(m.channelId, m.messageId)] else [])
  }

  /** The loop of lines 787-809. */
  method PurgeMessages(w: World, msgs: seq<EmbedRow>) returns (deleted: seq<Effect>, threw: bool)
    ensures PurgeResult(deleted, threw) == PurgeRun(w, msgs)
  {
    deleted := [];
    threw := false;
    var i := 0;
    while i < |msgs|
      invariant 0 <= i <= |msgs|
      invariant PurgeResult(deleted, threw) == PurgeRun(w, msgs[..i])
      invariant !threw
    {
      var m := msgs[i];
      assert msgs[..i + 1][..i] == msgs[..i];
      if !w.usable(m.channelId) {
        threw := true;
        assert PurgeRun(w, msgs[..i + 1]).threw;
        PurgeStopsAfterThrow(w, msgs, i + 1);
        return;
      }
      if !w.present(m.channelId, m.messageId) || !w.deletable(m.channelId, m.messageId) {
        i := i + 1;
        continue;
      }
      if !w.deleteOk(m.channelId, m.messageId) {
        i := i + 1;
        continue;
      }
      deleted := deleted + [DeleteMessage(m.channelId, m.messageId)];
      i := i + 1;
    }
    assert msgs[..i] == msgs;
  }

  /** Once the loop has thrown, later messages change nothing. */
  lemma {:induction false} PurgeStopsAfterThrow(w: World, msgs: seq<EmbedRow>, k: nat)
    requires k <= |msgs| && PurgeRun(w, msgs[..k]).threw
    ensures PurgeRun(w, msgs) == PurgeRun(w, msgs[..k])
    decreases |msgs| - k
  {
    if k < |msgs| {
      assert msgs[..k + 1][..k] == msgs[..k];
      PurgeStopsAfterThrow(w, msgs, k + 1);
    } else {
      assert msgs[..k] == msgs;
    }
  }

  function PurgeRunAll(w: World, db: Db, c: Subcommand): Outcome
    requires c.Purge?
  {
    var gate := Gate(w.user, c, "purge");
    if gate.Some? then Outcome([], gate.value)
    else if !Truthy(c.uuid) then Outcome([], Reply(NoUuid, true))
    else if c.uuid.value !in db.statuses then Outcome([], Reply("Status not found", true))
    else
      var status := db.statuses[c.uuid.value];
      if c.confirm != Some(PurgePhrase) then Outcome([], Reply(Join(PurgeWarning(status.serverName), "\n"), true))
      else
        var run := PurgeRun(w, MessagesOf(db.embeds, c.uuid.value));
        if run.threw then Outcome(run.deleted, Threw("Channel not found"))
        else Outcome(run.deleted + [DeleteStatus(c.uuid.value)], Reply("Status for server " + status.serverName + " purged", true))
  }

  /** The handler: the guild and channel guards, then the subcommand. */
  function Crafty(w: World, db: Db, cmd: Subcommand): Outcome
  {
    if !w.inGuild then Outcome([], Reply("This command must be run in a guild", true))
    else if !w.channelSendable then Outcome([], Reply("This command must be run in a sendable channel", true))
    else
      match cmd
      case Create(_, _, _, _) => CreateRun(w, cmd)
      case Modify(_, _, _, _, _) => ModifyRun(w, db, cmd)
      case Delete(_) => DeleteRun(w, db, cmd)
      case Purge(_, _) => PurgeRunAll(w, db, cmd)
      case Unknown(name) => Outcome([], Threw("Subcommand not found: " + name))
  }

  // ---------------------------------------------------------------------
  // What the handler promises.

  /** Outside a guild, or in a channel the bot cannot send to, nothing runs. */
  lemma GuardsComeFirst(w: World, db: Db, cmd: Subcommand)
    ensures !w.inGuild ==> Crafty(w, db, cmd) == Outcome([], Reply("This command must be run in a guild", true))
    ensures w.inGuild && !w.channelSendable ==>
      Crafty(w, db, cmd) == Outcome([], Reply("This command must be run in a sendable channel", true))
  {
  }

  /** The flag each subcommand needs. */
  function Needed(cmd: Subcommand, u: DiscordUser): bool
  {
    match cmd
    case Create(_, _, _, _) => u.creationAllowed
    case Modify(_, _, _, _, _) => u.updateAllowed
    case Delete(_) => u.deleteAllowed
    case Purge(_, _) => u.purgeAllowed
    case Unknown(_) => true
  }

  /** Past the guards, a caller without a user record, or without the
      subcommand's flag, is refused and nothing happens. */
  lemma PermissionGates(w: World, db: Db, cmd: Subcommand)
    requires w.inGuild && w.channelSendable && !cmd.Unknown?
    ensures w.user.None? ==> Crafty(w, db, cmd) == Outcome([], Reply(NoAccess, true))
    ensures w.user.Some? && !Needed(cmd, w.user.value) ==>
      Crafty(w, db, cmd).effects == [] && Crafty(w, db, cmd).answer.Reply? && Crafty(w, db, cmd).answer.ephemeral
      && StartsWith(Crafty(w, db, cmd).answer.content, "You do not have permission to ")
  {
  }

  /** Any effect at all needs the subcommand's flag. */
  lemma EffectsNeedFlag(w: World, db: Db, cmd: Subcommand)
    requires Crafty(w, db, cmd).effects != []
    ensures w.inGuild && w.channelSendable && w.user.Some? && Needed(cmd, w.user.value)
  {
  }

  /** `create` with stats: the message goes to the command's channel and the
      status is upserted under the server id the management API reports,
      with the given addresses, the sanitised version and one sample. */
  lemma CreateWrites(w: World, c: Subcommand)
    requires c.Create? && c.uuid.Some? && w.stats(c.uuid.value).StatsOk?
    requires w.inGuild && w.channelSendable && w.user.Some? && w.user.value.creationAllowed
    ensures var s := w.stats(c.uuid.value).stats;
      var out := Crafty(w, Db([], map[]), c);
      out.effects != [] ==>
        && |out.effects| == 2
        && out.effects[0].Send? && out.effects[0].channelId == w.hereChannel
        && out.effects[1].UpsertStatus?
        && out.effects[1].serverId == s.serverId
        && out.effects[1].sample == PlayerCount(w.now, s.running, s.online, s.max, s.players)
        && out.effects[1].data.serverVersion == SanitizeVersion(s.version)
        && out.effects[1].data.javaIp == (if Truthy(c.javaIp) then c.javaIp else None)
        && out.effects[1].data.bedrockIp == (if Truthy(HostPart(c.bedrockIp)) then HostPart(c.bedrockIp) else None)
        && out.effects[1].data.bedrockPort == PortPart(c.bedrockIp)
        && out.effects[1].messageId == w.sentId(w.hereChannel)
        && out.effects[1].channelId == w.hereChannel
        && out.effects[1].data.serverName == s.serverName
        && !out.effects[1].data.maintenance
        && out.effects[1].showMaxIfExisting == (c.showMax == Some(true))
        && out.answer == EditReply("Status embed created")
  {
  }

  /** The embed create sends: the server's name and sanitised version, the
      given Java address and the host part of the Bedrock address when each is
      non-empty, the port when non-empty, no Java port, and the one sample
      just taken. Create writes anything exactly when that embed builds and
      the send to the command's channel goes through; otherwise it answers
      the failure text with no effects. */
  lemma CreateSendsEmbed(w: World, c: Subcommand)
    requires c.Create? && c.uuid.Some? && w.stats(c.uuid.value).StatsOk?
    requires w.inGuild && w.channelSendable && w.user.Some? && w.user.value.creationAllowed
    ensures var s := w.stats(c.uuid.value).stats; var out := Crafty(w, Db([], map[]), c);
      var host := HostPart(c.bedrockIp); var port := PortPart(c.bedrockIp);
      var st := Embed.EmbedStatus(s.serverName, if Truthy(c.javaIp) then c.javaIp else None, None,
                                  if Truthy(host) then host else None, if Truthy(port) then port else None,
                                  SanitizeVersion(s.version), [SampleOf(s, w.now)]);
      out.effects != [] ==>
        (&& Embed.EmbedOf(st, None, w.now, w.collate).Ok?
         && out.effects[0] == Send(w.hereChannel, Embed.EmbedOf(st, None, w.now, w.collate).value, out.effects[0].chart))
    ensures var s := w.stats(c.uuid.value).stats; var out := Crafty(w, Db([], map[]), c);
      var host := HostPart(c.bedrockIp); var port := PortPart(c.bedrockIp);
      var st := Embed.EmbedStatus(s.serverName, if Truthy(c.javaIp) then c.javaIp else None, None,
                                  if Truthy(host) then host else None, if Truthy(port) then port else None,
                                  SanitizeVersion(s.version), [SampleOf(s, w.now)]);
      && (out.effects != [] <==> Embed.EmbedOf(st, None, w.now, w.collate).Ok? && w.sendOk(w.hereChannel))
      && (out.effects == [] ==> out.answer == FailedAfterDefer("Failed to get server"))
  { }

  /** The chart create draws: the pair in the `online` position makes it the
      online colour even for a stopped server, and the axis is the current
      player count plus 5 whatever show-max-players says. */
  lemma CreateChartIgnoresFlags(w: World, c: Subcommand)
    requires c.Create? && c.uuid.Some? && w.stats(c.uuid.value).StatsOk?
    requires w.inGuild && w.channelSendable && w.user.Some? && w.user.value.creationAllowed
    requires Crafty(w, Db([], map[]), c).effects != []
    ensures var chart := Crafty(w, Db([], map[]), c).effects[0].chart;
      && chart.borderColour == OnlineColour
      && chart.yMax == w.stats(c.uuid.value).stats.online + 5
      && chart.values == [w.stats(c.uuid.value).stats.online]
  {
    var s := w.stats(c.uuid.value).stats;
    var sample := SampleOf(s, w.now);
    SortOfSingle(sample);
  }

  lemma SortOfSingle(x: PlayerCount)
    ensures Sort([x], Chart.ByTime()) == [x]
  {
    assert Sort([x], Chart.ByTime()) == Insert(x, Sort([], Chart.ByTime()), Chart.ByTime());
  }

  /** On modify, `false` for show-max-players keeps a stored `true`. */
  lemma ExplicitFalseKeepsStored()
    ensures ShowMaxOnModify(Some(false), true)
  {
  }

  /** A modify carrying only a Bedrock address is refused as having no
      options. */
  lemma BedrockAloneIsNoOptions(w: World, db: Db, id: string, bedrock: string)
    requires w.inGuild && w.channelSendable && w.user.Some? && w.user.value.updateAllowed && id != ""
    ensures Crafty(w, db, Modify(Some(id), None, Some(bedrock), None, None))
      == Outcome([], Reply("No options provided. Updating not necessary", true))
  {
  }

  /** Every modify that gets past its checks reports "Status embed updated":
      the text about a re-created message is never produced, and an
      "updated" answer always comes with the row update as the last effect. */
  lemma ModifyNeverReportsRecreation(w: World, db: Db, c: Subcommand)
    requires c.Modify?
    ensures Crafty(w, db, c).answer != EditReply(Recreated)
    ensures Crafty(w, db, c).answer == EditReply(Updated) ==>
      Crafty(w, db, c).effects != [] && LastEffect(Crafty(w, db, c).effects).UpdateEmbedRow?
  {
    assert |Recreated| != |Updated|;
  }

  function LastEffect(es: seq<Effect>): Effect
    requires es != []
  {
    es[|es| - 1]
  }

  /** Moving a message that no longer fetches sends the copy to the new
      channel and then fails on the missing original: the copy stays, and
      the database still points at the old message. */
  lemma MoveOfMissingMessageOrphansCopy(w: World, c: Subcommand, row: EmbedRow, embed: Embed.Embed,
                                        chart: Chart.LineChart, showMax: bool, data: StatusData, sample: PlayerCount)
    requires c.Modify? && Truthy(c.moveTo)
    requires w.usable(row.channelId) && w.usable(c.moveTo.value) && w.sendOk(c.moveTo.value)
    requires !w.present(row.channelId, row.messageId)
    ensures Deliver(w, c, row, embed, chart, showMax, data, sample)
      == Outcome([Send(c.moveTo.value, embed, chart)], FailedAfterDefer("Failed to update server"))
  {
  }

  /** A modify's message row gets the show-max flag the options resolve to,
      and its status keeps the stored addresses the options leave out. */
  lemma ModifyUpdatesRow(w: World, c: Subcommand, row: EmbedRow, status: StatusRecord, s: ServerStats)
    requires c.Modify?
    requires ModifyWithStats(w, c, row, status, s).answer == EditReply(Updated)
    ensures var e := LastEffect(ModifyWithStats(w, c, row, status, s).effects);
      && e.UpdateEmbedRow? && e.messageId == row.messageId
      && e.showMax == ShowMaxOnModify(c.showMax, row.showMaxPlayers)
      && e.data == ModifyData(c, status, s)
      && e.sample == PlayerCount(w.now, s.running, s.online, s.max, s.players)
  {
  }

  /** Delete removes the message and its row and nothing else; a message
      that does not fetch is reported as not found, and a rejected delete
      leaves the handler with the row still stored. */
  lemma DeleteRemovesOne(w: World, db: Db, id: string)
    requires w.inGuild && w.channelSendable && w.user.Some? && w.user.value.deleteAllowed && id != ""
    ensures var out := Crafty(w, db, Delete(Some(id)));
      out.effects != [] ==>
        && FindEmbedRow(db.embeds, id).Some?
        && var row := FindEmbedRow(db.embeds, id).value;
           out.effects == [DeleteMessage(row.channelId, id), DeleteEmbedRow(id)]
           && w.present(row.channelId, id) && w.deleteOk(row.channelId, id)
    ensures var out := Crafty(w, db, Delete(Some(id)));
      var row := FindEmbedRow(db.embeds, id);
      (row.Some? && w.usable(row.value.channelId) && w.present(row.value.channelId, id)
       && !w.deleteOk(row.value.channelId, id)) ==> out == Outcome([], Threw(DeleteRejected))
    ensures var out := Crafty(w, db, Delete(Some(id)));
      FindEmbedRow(db.embeds, id).None? ==> out == Outcome([], Reply(NotFound, false))
    ensures var out := Crafty(w, db, Delete(Some(id)));
      var row := FindEmbedRow(db.embeds, id);
      (row.Some? && w.usable(row.value.channelId) && w.present(row.value.channelId, id)
       && w.deleteOk(row.value.channelId, id)) ==>
        out == Outcome([DeleteMessage(row.value.channelId, id), DeleteEmbedRow(id)], Reply("Status embed deleted", true))
  {
  }

  /** Nothing is deleted unless `confirm` is exactly the phrase. */
  lemma PurgeNeedsPhrase(w: World, db: Db, uuid: Option<string>, confirm: Option<string>)
    requires confirm != Some(PurgePhrase)
    ensures Crafty(w, db, Purge(uuid, confirm)).effects == []
  {
  }

  /** Every message the purge loop deletes belongs to the status and passed
      every check. */
  lemma {:induction false} PurgeDeletesOnlyChecked(w: World, msgs: seq<EmbedRow>)
    ensures forall e | e in PurgeRun(w, msgs).deleted ::
      e.DeleteMessage? && exists m | m in msgs :: e == DeleteMessage(m.channelId, m.messageId) && Deletes(w, m)
  {
    if msgs != [] {
      PurgeDeletesOnlyChecked(w, msgs[..|msgs| - 1]);
      var m := msgs[|msgs| - 1];
      assert m in msgs;
      assert forall x | x in msgs[..|msgs| - 1] :: x in msgs;
    }
  }

  /** When every channel is usable the loop does not throw and deletes
      exactly the messages that pass the checks, in order. */
  lemma {:induction false} PurgeAllUsable(w: World, msgs: seq<EmbedRow>)
    requires forall m | m in msgs :: w.usable(m.channelId)
    ensures PurgeRun(w, msgs) == PurgeResult(DeletedOf(w, msgs), false)
  {
    if msgs != [] {
      assert forall x | x in msgs[..|msgs| - 1] :: x in msgs;
      PurgeAllUsable(w, msgs[..|msgs| - 1]);
    }
  }

  /** With the phrase, a purge whose channels are all usable deletes the
      checked messages and then the status; if a channel is unusable the
      status stays. */
  lemma PurgeWithPhrase(w: World, db: Db, uuid: string)
    requires w.inGuild && w.channelSendable && w.user.Some? && w.user.value.purgeAllowed
    requires uuid != "" && uuid in db.statuses
    ensures var out := Crafty(w, db, Purge(Some(uuid), Some(PurgePhrase)));
      var msgs := MessagesOf(db.embeds, uuid);
      (forall m | m in msgs :: w.usable(m.channelId)) ==>
        out == Outcome(DeletedOf(w, msgs) + [DeleteStatus(uuid)],
                       Reply("Status for server " + db.statuses[uuid].serverName + " purged", true))
    ensures var out := Crafty(w, db, Purge(Some(uuid), Some(PurgePhrase)));
      forall e | e in out.effects :: e != DeleteStatus(uuid) || out.answer.Reply?
  {
    var msgs := MessagesOf(db.embeds, uuid);
    if forall m | m in msgs :: w.usable(m.channelId) {
      PurgeAllUsable(w, msgs);
    }
    PurgeDeletesOnlyChecked(w, msgs);
  }
}
