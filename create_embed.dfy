/** `createEmbed`: the status embed as a record of texts and fields. Two
    views share it: the current view (no date) describes the newest sample,
    the historic view (a date) lists everyone seen in the given samples. */
module Embed {
  import opened Base
  import opened Records
  import opened Sorting
  import opened Consts
  import JsonParser

  /** The columns of a status row and its samples that the embed reads. */
  datatype EmbedStatus = EmbedStatus(
    serverName: string,
    javaIp: Option<string>,
    javaPort: Option<string>,
    bedrockIp: Option<string>,
    bedrockPort: Option<string>,
    serverVersion: string,
    playerCounts: seq<PlayerCount>)

  /** The embed's view of a status row with the given samples. */
  function StatusView(row: StatusRow, samples: seq<PlayerCount>): EmbedStatus
  {
    EmbedStatus(row.serverName, row.javaIp, row.javaPort, row.bedrockIp, row.bedrockPort, row.serverVersion, samples)
  }

  datatype Field = Field(name: string, value: string, inline: bool)

  /** The embed. `footer` and `description` hold the date as the caller
      renders it; `timestamp` is set only in the current view. */
  datatype Embed = Embed(
    title: string,
    description: string,
    colour: Colour,
    footer: string,
    timestamp: Option<int>,
    fields: seq<Field>)

  /** Why `createEmbed` throws: a player list that `JSON.parse` rejects, or
      the current view of a status with no sample (`playerCounts[0]` is
      undefined, so reading `.online` from it throws). */
  datatype EmbedError = UnparsablePlayers | NoSample

  const DefaultBedrockPort := "19132"

  // ---------------------------------------------------------------------
  // Address fields.

  /** Java IP (when set, with `:port` when a port is set), Bedrock IP (when
      set, with the port or 19132) and the server version. */
  function AddressFields(st: EmbedStatus): seq<Field>
  {
    (if Truthy(st.javaIp)
     then [Field("Java IP", "`" + st.javaIp.value + (if Truthy(st.javaPort) then ":" + st.javaPort.value else "") + "`", true)]
     else [])
    + (if Truthy(st.bedrockIp)
       then [Field("Bedrock IP", "`" + st.bedrockIp.value + ":" + (if st.bedrockPort.Some? then st.bedrockPort.value else DefaultBedrockPort) + "`", true)]
       else [])
    + [Field("Server Version", "`" + st.serverVersion + "`", true)]
  }

  // ---------------------------------------------------------------------
  // Player lists.

  /** The names one sample's `players` text holds: the list when it parses
      to a list of strings, nothing when it parses to a boolean or anything
      else, and `None` when it does not parse (`JSON.parse` throws). */
  function SampleNames(players: string): Option<seq<string>>
  {
    var parsed := JsonParser.ParseJson(players);
    if parsed.Err? then None
    else if parsed.value.StringArray? then Some(parsed.value.items)
    else Some([])
  }

  predicate NoDuplicates(s: seq<string>)
  {
    forall i, j | 0 <= i < j < |s| :: s[i] != s[j]
  }

  /** `Set.prototype.add`: a name already present is not added again. */
  function AddName(seen: seq<string>, n: string): seq<string>
  {
    if n in seen then seen else seen + [n]
  }

  function AddNames(seen: seq<string>, names: seq<string>): seq<string>
  {
    if names == [] then seen
    else AddName(AddNames(seen, names[..|names| - 1]), names[|names| - 1])
  }

  /** Adding names keeps the set's order of first insertion, keeps it free
      of duplicates, and leaves it holding exactly the old and new names. */
  lemma {:induction false} AddNamesIsUnion(seen: seq<string>, names: seq<string>)
    requires NoDuplicates(seen)
    ensures |AddNames(seen, names)| >= |seen|
    ensures NoDuplicates(AddNames(seen, names))
    ensures AddNames(seen, names)[..|seen|] == seen
    ensures forall n :: n in AddNames(seen, names) <==> n in seen || n in names
  {
    if names != [] {
      var init, last := names[..|names| - 1], names[|names| - 1];
      AddNamesIsUnion(seen, init);
      assert names == init + [last];
      var acc := AddNames(seen, init);
      if last !in acc {
        assert (acc + [last])[..|seen|] == acc[..|seen|];
      }
    }
  }

  /** The historic union over the samples' parsed lists: every list's
      names added in turn, or an error as soon as one list did not parse. */
  function Union(lists: seq<Option<seq<string>>>): Option<seq<string>>
  {
    if lists == [] then Some([])
    else
      match Union(lists[..|lists| - 1])
      case None => None
      case Some(acc) =>
        match lists[|lists| - 1]
        case None => None
        case Some(names) => Some(AddNames(acc, names))
  }

  /** Each sample's `players` text, parsed. */
  function ParsedSamples(samples: seq<PlayerCount>): (r: seq<Option<seq<string>>>)
    ensures |r| == |samples|
  {
    seq(|samples|, i requires 0 <= i < |samples| => SampleNames(samples[i].players))
  }

  function CombinedPlayers(samples: seq<PlayerCount>): Option<seq<string>>
  {
    Union(ParsedSamples(samples))
  }

  /** `n` is a name of the `i`-th list, and that list parsed. */
  predicate NameOfList(lists: seq<Option<seq<string>>>, i: int, n: string)
  {
    0 <= i < |lists| && lists[i].Some? && n in lists[i].value
  }

  /** The union fails exactly when some list did not parse; otherwise it
      holds each name of any list, once. */
  lemma {:induction false} UnionIsUnion(lists: seq<Option<seq<string>>>)
    ensures Union(lists).None? <==> exists i | 0 <= i < |lists| :: lists[i].None?
    ensures Union(lists).Some? ==> NoDuplicates(Union(lists).value)
    ensures Union(lists).Some? ==> forall n ::
      n in Union(lists).value <==> exists i :: NameOfList(lists, i, n)
  {
    if lists != [] {
      var init, k := lists[..|lists| - 1], |lists| - 1;
      UnionIsUnion(init);
      assert forall i | 0 <= i < k :: init[i] == lists[i];
      if Union(init).Some? && lists[k].Some? {
        var acc := Union(init).value;
        AddNamesIsUnion(acc, lists[k].value);
        forall n | n in Union(lists).value
          ensures exists i :: NameOfList(lists, i, n)
        {
          if n in acc {
            var i :| NameOfList(init, i, n);
            assert NameOfList(lists, i, n);
          } else {
            assert NameOfList(lists, k, n);
          }
        }
        forall n, i | NameOfList(lists, i, n)
          ensures n in Union(lists).value
        {
          if i < k {
            assert NameOfList(init, i, n);
          }
        }
      } else if Union(init).None? {
        var i :| 0 <= i < k && init[i].None?;
        assert lists[i].None?;
      }
    }
  }

  /** The loop of the historic view: a `Set` filled sample by sample. */
  method CombinePlayerLists(samples: seq<PlayerCount>) returns (r: Option<seq<string>>)
    ensures r == CombinedPlayers(samples)
  {
    ghost var lists := ParsedSamples(samples);
    var combined: seq<string> := [];
    for i := 0 to |samples|
      invariant Union(lists[..i]) == Some(combined)
    {
      assert lists[..i + 1][..i] == lists[..i];
      var parsed := SampleNames(samples[i].players);
      assert parsed == lists[i];
      if parsed.None? {
        UnionIsUnion(lists);
        return None;
      }
      combined := AddEach(combined, parsed.value);
    }
    assert lists[..|samples|] == lists;
    r := Some(combined);
  }

  /** `currentPlayerList.forEach((player) => combinedPlayerList.add(player))`. */
  method AddEach(seen: seq<string>, names: seq<string>) returns (r: seq<string>)
    ensures r == AddNames(seen, names)
  {
    r := seen;
    for k := 0 to |names|
      invariant r == AddNames(seen, names[..k])
    {
      assert names[..k + 1][..k] == names[..k];
      r := AddName(r, names[k]);
    }
    assert names[..|names|] == names;
  }

  /** `replace(/"/g, "")`. */
  function RemoveQuotes(n: string): (r: string)
    ensures forall i | 0 <= i < |r| :: r[i] != '"'
  {
    if n == [] then []
    else (if n[0] == '"' then [] else [n[0]]) + RemoveQuotes(n[1..])
  }

  /** `replace(/^\./g, "")`: the anchor matches once, so one dot at most. */
  function StripLeadingDot(n: string): string
  {
    if |n| > 0 && n[0] == '.' then n[1..] else n
  }

  function CleanName(n: string): string
  {
    StripLeadingDot(RemoveQuotes(n))
  }

  function CleanNames(names: seq<string>): (r: seq<string>)
    ensures |r| == |names|
    ensures forall i | 0 <= i < |names| :: r[i] == CleanName(names[i])
  {
    seq(|names|, i requires 0 <= i < |names| => CleanName(names[i]))
  }

  /** The list as shown: cleaned, then sorted by the collation (the
      source's `localeCompare`). */
  function ShownPlayers(names: seq<string>, collate: (string, string) -> bool): seq<string>
  {
    if names == [] then [] else Sort(CleanNames(names), collate)
  }

  /** Quotes are removed piecewise: the pass over a concatenation is the
      concatenation of the passes, so each other character keeps its order. */
  lemma {:induction false} RemoveQuotesConcat(a: string, b: string)
    ensures RemoveQuotes(a + b) == RemoveQuotes(a) + RemoveQuotes(b)
  {
    if a != [] {
      assert (a + b)[0] == a[0];
      assert (a + b)[1..] == a[1..] + b;
      RemoveQuotesConcat(a[1..], b);
    } else {
      assert a + b == b;
    }
  }

  /** On one character the pass drops a `"` and keeps anything else. */
  lemma RemoveQuotesChar(c: char)
    ensures RemoveQuotes([c]) == if c == '"' then [] else [c]
  {
    assert [c][1..] == [];
  }

  /** A cleaned name holds no `"`, and is the quote-free name with its
      leading dot taken off exactly when it has one. */
  lemma CleanNameMeaning(n: string)
    ensures forall i | 0 <= i < |CleanName(n)| :: CleanName(n)[i] != '"'
    ensures var q := RemoveQuotes(n);
      |q| > 0 && q[0] == '.' ==> "." + CleanName(n) == q
    ensures var q := RemoveQuotes(n);
      !(|q| > 0 && q[0] == '.') ==> CleanName(n) == q
  {
    var q := RemoveQuotes(n);
    if |q| > 0 && q[0] == '.' {
      assert q == [q[0]] + q[1..];
    }
  }

  lemma {:induction false} RemoveQuotesOfQuoteFree(n: string)
    requires forall i | 0 <= i < |n| :: n[i] != '"'
    ensures RemoveQuotes(n) == n
  {
    if n != [] {
      RemoveQuotesOfQuoteFree(n[1..]);
      assert n == [n[0]] + n[1..];
    }
  }

  /** A name with no `"` and no leading dot is shown as it is. */
  lemma CleanNameKeepsPlainName(n: string)
    requires forall i | 0 <= i < |n| :: n[i] != '"'
    requires n == [] || n[0] != '.'
    ensures CleanName(n) == n
  {
    RemoveQuotesOfQuoteFree(n);
  }

  /** The shown list is a reordering of the cleaned names, in collation
      order. */
  lemma ShownPlayersSorted(names: seq<string>, collate: (string, string) -> bool)
    requires TotalPreorder(collate)
    ensures multiset(ShownPlayers(names, collate)) == multiset(CleanNames(names))
    ensures Sorted(ShownPlayers(names, collate), collate)
  {
    if names != [] {
      SortSorted(CleanNames(names), collate);
    }
  }

  /** De-duplication happens before cleaning, so a Bedrock player `.Steve`
      and a Java player `Steve` are both shown, as `Steve`. */
  lemma DottedTwinShownTwice(collate: (string, string) -> bool)
    ensures ShownPlayers(AddNames([], [".Steve", "Steve"]), collate) == ["Steve", "Steve"]
  {
    assert [".Steve", "Steve"][..1] == [".Steve"];
    assert [".Steve"][..0] == [];
    var both := AddNames([], [".Steve", "Steve"]);
    assert both == [".Steve", "Steve"];
    RemoveQuotesOfQuoteFree(".Steve");
    RemoveQuotesOfQuoteFree("Steve");
    assert CleanNames(both) == ["Steve", "Steve"];
    assert ["Steve", "Steve"][..1] == ["Steve"];
    assert ["Steve"][..0] == [];
  }

  // ---------------------------------------------------------------------
  // The embed.

  /** The "Online Players" field. A non-empty list is fenced under a header;
      an empty one gets the fixed text of its view. */
  function PlayersField(shown: seq<string>, header: string, historic: bool): Field
  {
    Field(
      "Online Players",
      if |shown| > 0 then header + "\n```\n" + Join(shown, "\n") + "\n```"
      else if historic then "No one ever logged in :sob:"
      else "```\nNo players online\n```",
      false)
  }

  /** The embed once the player list is known. `taken` is the historic
      date's text; the current view reads the newest sample, `playerCounts[0]`. */
  function Assemble(st: EmbedStatus, taken: Option<string>, now: int, shown: seq<string>): Embed
    requires taken.Some? || |st.playerCounts| > 0
  {
    Embed(
      st.serverName + " Status",
      if taken.Some? then "Showing historic player data for **" + taken.value + "**"
      else "Server is currently " + (if st.playerCounts[0].online then "**online**" else "**offline**"),
      if taken.Some? then HistoryColour
      else if st.playerCounts[0].online then OnlineColour else OfflineColour,
      if taken.Some? then taken.value else "Last updated",
      if taken.Some? then None else Some(now),
      AddressFields(st) + [PlayersField(shown, Header(st, taken), taken.Some?)])
  }

  /** The players header: the date in the historic view, the newest
      sample's `playerCount` in the current one. */
  function Header(st: EmbedStatus, taken: Option<string>): string
    requires taken.Some? || |st.playerCounts| > 0
  {
    if taken.Some? then "All players online on " + taken.value + ":"
    else IntToString(st.playerCounts[0].playerCount) + " players online:"
  }

  /** The names before cleaning: the union over all samples in the historic
      view, the newest sample's list in the current one. */
  function RawPlayers(st: EmbedStatus, taken: Option<string>): Option<seq<string>>
    requires taken.Some? || |st.playerCounts| > 0
  {
    if taken.Some? then CombinedPlayers(st.playerCounts) else SampleNames(st.playerCounts[0].players)
  }

  /** What `createEmbed(st, taken)` returns or throws at time `now`. */
  function EmbedOf(st: EmbedStatus, taken: Option<string>, now: int, collate: (string, string) -> bool)
    : Result<Embed, EmbedError>
  {
    if taken.None? && |st.playerCounts| == 0 then Err(NoSample)
    else
      match RawPlayers(st, taken)
      case None => Err(UnparsablePlayers)
      case Some(names) => Ok(Assemble(st, taken, now, ShownPlayers(names, collate)))
  }

  /** The imperative rendering of `EmbedOf`: the source's statement order,
      with the player lists combined by the `CombinePlayerLists` loop, proved
      to return what `EmbedOf` specifies. */
  method CreateEmbed(st: EmbedStatus, taken: Option<string>, now: int, collate: (string, string) -> bool)
    returns (r: Result<Embed, EmbedError>)
    ensures r == EmbedOf(st, taken, now, collate)
  {
    if taken.None? && |st.playerCounts| == 0 {
      return Err(NoSample);
    }
    var playerList: Option<seq<string>>;
    if taken.Some? {
      playerList := CombinePlayerLists(st.playerCounts);
    } else {
      playerList := SampleNames(st.playerCounts[0].players);
    }
    if playerList.None? {
      return Err(UnparsablePlayers);
    }
    r := Ok(Assemble(st, taken, now, ShownPlayers(playerList.value, collate)));
  }

  // ---------------------------------------------------------------------
  // What the embed promises.

  function FieldNames(fields: seq<Field>): (r: seq<string>)
    ensures |r| == |fields|
    ensures forall i | 0 <= i < |fields| :: r[i] == fields[i].name
  {
    seq(|fields|, i requires 0 <= i < |fields| => fields[i].name)
  }

  /** Field order of every embed: Java IP when a Java address is set,
      Bedrock IP when a Bedrock address is set, then the version and the
      players. */
  lemma FieldLayout(st: EmbedStatus, taken: Option<string>, now: int, shown: seq<string>)
    requires taken.Some? || |st.playerCounts| > 0
    ensures FieldNames(Assemble(st, taken, now, shown).fields)
         == (if Truthy(st.javaIp) then ["Java IP"] else [])
          + (if Truthy(st.bedrockIp) then ["Bedrock IP"] else [])
          + ["Server Version", "Online Players"]
  {
    var fields := Assemble(st, taken, now, shown).fields;
    assert fields == AddressFields(st) + [PlayersField(shown, Header(st, taken), taken.Some?)];
  }

  /** The Java address shows the port after `:` only when one is set. */
  lemma JavaAddressText(st: EmbedStatus)
    requires Truthy(st.javaIp)
    ensures AddressFields(st)[0].value
         == if Truthy(st.javaPort) then "`" + st.javaIp.value + ":" + st.javaPort.value + "`"
            else "`" + st.javaIp.value + "`"
  {
  }

  /** The Bedrock address always shows a port: the stored one, or 19132
      when none is stored. */
  lemma BedrockAddressText(st: EmbedStatus)
    requires Truthy(st.bedrockIp)
    ensures var f := AddressFields(st)[if Truthy(st.javaIp) then 1 else 0];
      f.name == "Bedrock IP" &&
      f.value == "`" + st.bedrockIp.value + ":" + (if st.bedrockPort.None? then "19132" else st.bedrockPort.value) + "`"
  {
  }

  /** The current view needs a sample; with one, its description and
      colour follow that sample's `online`. */
  lemma CurrentViewFollowsNewestSample(st: EmbedStatus, now: int, collate: (string, string) -> bool)
    ensures |st.playerCounts| == 0 ==> EmbedOf(st, None, now, collate) == Err(NoSample)
    ensures EmbedOf(st, None, now, collate).Ok? ==>
      var e := EmbedOf(st, None, now, collate).value;
      && (e.colour == OnlineColour <==> st.playerCounts[0].online)
      && (e.colour == OfflineColour <==> !st.playerCounts[0].online)
      && e.description == "Server is currently " + (if st.playerCounts[0].online then "**online**" else "**offline**")
      && e.timestamp == Some(now)
  {
  }

  /** The players field closes the embed, under the header of its view. */
  lemma PlayersFieldIsLast(st: EmbedStatus, taken: Option<string>, now: int, shown: seq<string>)
    requires taken.Some? || |st.playerCounts| > 0
    ensures LastField(Assemble(st, taken, now, shown).fields) == PlayersField(shown, Header(st, taken), taken.Some?)
  {
    var fields := Assemble(st, taken, now, shown).fields;
    assert fields == AddressFields(st) + [PlayersField(shown, Header(st, taken), taken.Some?)];
  }

  /** The Python list the API sends shows as its names, cleaned and sorted,
      under a header that counts the sample's `playerCount`, not the names. */
  lemma CurrentViewListsNewestSample(st: EmbedStatus, names: seq<string>, now: int, collate: (string, string) -> bool)
    requires |st.playerCounts| > 0 && |names| > 0
    requires forall k :: 0 <= k < |names| ==> JsonParser.PlainName(names[k])
    requires st.playerCounts[0].players == JsonParser.PythonList(names)
    ensures EmbedOf(st, None, now, collate).Ok?
    ensures LastField(EmbedOf(st, None, now, collate).value.fields)
         == PlayersField(Sort(CleanNames(names), collate),
                         IntToString(st.playerCounts[0].playerCount) + " players online:", false)
  {
    JsonParser.PythonListRoundTrip(names);
    assert SampleNames(st.playerCounts[0].players) == Some(names);
    PlayersFieldIsLast(st, None, now, ShownPlayers(names, collate));
  }

  /** In the current view a boolean player list shows as nobody online. */
  lemma CurrentViewBooleanIsEmpty(st: EmbedStatus, now: int, collate: (string, string) -> bool)
    requires |st.playerCounts| > 0 && st.playerCounts[0].players in {"True", "False"}
    ensures EmbedOf(st, None, now, collate).Ok?
    ensures LastField(EmbedOf(st, None, now, collate).value.fields).value == "```\nNo players online\n```"
  {
    JsonParser.BooleansRoundTrip();
    assert SampleNames(st.playerCounts[0].players) == Some([]);
    PlayersFieldIsLast(st, None, now, []);
  }

  /** The historic view lists the union of all samples' names, and says
      nobody logged in when that union is empty. */
  lemma HistoricViewListsUnion(st: EmbedStatus, date: string, now: int, collate: (string, string) -> bool)
    requires EmbedOf(st, Some(date), now, collate).Ok?
    ensures CombinedPlayers(st.playerCounts).Some?
    ensures var e := EmbedOf(st, Some(date), now, collate).value;
      var names := CombinedPlayers(st.playerCounts).value;
      && e.colour == HistoryColour && e.timestamp == None
      && LastField(e.fields) == PlayersField(ShownPlayers(names, collate), "All players online on " + date + ":", true)
      && (names == [] <==> LastField(e.fields).value == "No one ever logged in :sob:")
  {
    var names := CombinedPlayers(st.playerCounts).value;
    PlayersFieldIsLast(st, Some(date), now, ShownPlayers(names, collate));
    if names != [] {
      var v := PlayersField(ShownPlayers(names, collate), "All players online on " + date + ":", true).value;
      assert v[0] == 'A';
    }
  }

  function LastField(fields: seq<Field>): Field
    requires |fields| > 0
  {
    fields[|fields| - 1]
  }
}
