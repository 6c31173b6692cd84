/** The "View History" button and the modal it opens: the typed date is
    read as `d/m/yyyy`, checked, turned into a 24-hour window, and the
    samples of that day are charted and listed. */
module DayModal {
  import opened Base
  import opened Records
  import opened Sorting
  import opened Consts
  import Chart
  import Embed

  /** The interactions the handler looks at. */
  datatype Interaction =
    | ButtonPress(customId: string)
    | ModalSubmit(customId: string, fromMessage: bool, messageId: string, dateField: string)
    | OtherInteraction

  /** What the handler answers. `Reply` is the ephemeral reply sent before
      the answer is deferred, `EditReply` and `EditReplyEmbed` edit the
      deferred one. */
  datatype ModalReply =
    | ShowDayPicker
    | NotHandled
    | Reply(content: string)
    | EditReply(content: string)
    | EditReplyEmbed(embed: Embed.Embed, chart: Chart.LineChart)

  const NoDateReply := "You didn't enter a date!"
  const InvalidDateReply := "You didn't enter a valid date!"
  const NoStatusReply := "No status found in this channel!"
  const FetchFailedReply := "An error occurred while trying to fetch the data! Please try again later."

  // ---------------------------------------------------------------------
  // The date pattern `([0-9]?[0-9])\/([0-9]?[0-9])\/([0-9][0-9][0-9][0-9])`.

  /** The three digit runs of a match. */
  datatype DateText = DateText(day: string, month: string, year: string)

  predicate AllDigits(s: string)
  {
    forall i | 0 <= i < |s| :: IsDigit(s[i])
  }

  /** The pattern's language, stated directly: one or two digits, `/`,
      one or two digits, `/`, four digits, occurring at `p`. */
  predicate IsDateAt(s: string, p: int, m: DateText)
  {
    && 1 <= |m.day| <= 2 && 1 <= |m.month| <= 2 && |m.year| == 4
    && AllDigits(m.day) && AllDigits(m.month) && AllDigits(m.year)
    && OccursAt(s, m.day + "/" + m.month + "/" + m.year, p)
  }

  /** How many digits `[0-9]?[0-9]\/` takes at `p`: two when two digits and
      a slash follow, one when one digit and a slash do, none otherwise.
      Backtracking from two digits to one cannot succeed, since the second
      digit is not a slash. */
  function RunBeforeSlash(s: string, p: nat): (n: nat)
    ensures n <= 2
    ensures n > 0 ==> p + n < |s| && s[p + n] == '/' && forall k | p <= k < p + n :: IsDigit(s[k])
  {
    if p + 2 < |s| && IsDigit(s[p]) && IsDigit(s[p + 1]) && s[p + 2] == '/' then 2
    else if p + 1 < |s| && IsDigit(s[p]) && s[p + 1] == '/' then 1
    else 0
  }

  predicate YearAt(s: string, y: nat)
  {
    y + 4 <= |s| && IsDigit(s[y]) && IsDigit(s[y + 1]) && IsDigit(s[y + 2]) && IsDigit(s[y + 3])
  }

  /** The regular expression tried at position `p`. */
  function MatchAt(s: string, p: nat): (r: Option<DateText>)
    ensures r.Some? ==> IsDateAt(s, p, r.value)
  {
    var d := RunBeforeSlash(s, p);
    if d == 0 then None
    else
      var q := p + d + 1;
      var mo := RunBeforeSlash(s, q);
      if mo == 0 then None
      else
        var y := q + mo + 1;
        if !YearAt(s, y) then None
        else
          var m := DateText(s[p..p + d], s[q..q + mo], s[y..y + 4]);
          assert s[p..y + 4] == m.day + "/" + m.month + "/" + m.year by {
            assert s[p..y + 4] == s[p..p + d] + [s[p + d]] + s[q..q + mo] + [s[q + mo]] + s[y..y + 4];
          }
          Some(m)
  }

  /** An occurrence of `a + b` is an occurrence of `a` followed by one of `b`. */
  lemma OccursSplit(s: string, a: string, b: string, p: int)
    requires OccursAt(s, a + b, p)
    ensures OccursAt(s, a, p) && OccursAt(s, b, p + |a|)
  {
    assert s[p..p + |a|] == s[p..p + |a + b|][..|a|];
    assert s[p + |a|..p + |a| + |b|] == s[p..p + |a + b|][|a|..];
  }

  lemma OccursChars(s: string, t: string, p: int)
    requires OccursAt(s, t, p)
    ensures forall k | 0 <= k < |t| :: s[p + k] == t[k]
  {
    forall k | 0 <= k < |t|
      ensures s[p + k] == t[k]
    {
      assert s[p..p + |t|][k] == t[k];
    }
  }

  /** A run of one or two digits followed by `/` at `p` is taken whole. */
  lemma RunBeforeSlashTakesRun(s: string, p: nat, run: string)
    requires 1 <= |run| <= 2 && AllDigits(run)
    requires OccursAt(s, run + "/", p)
    ensures RunBeforeSlash(s, p) == |run|
    ensures s[p..p + |run|] == run
  {
    OccursSplit(s, run, "/", p);
    OccursChars(s, run + "/", p);
    assert (run + "/")[|run|] == '/';
    assert forall k | 0 <= k < |run| :: (run + "/")[k] == run[k];
  }

  /** Every occurrence of the pattern is found where it starts, with the
      same three runs: the matcher and the pattern agree. */
  lemma MatchAtFindsEveryDate(s: string, p: nat, m: DateText)
    requires IsDateAt(s, p, m)
    ensures MatchAt(s, p) == Some(m)
  {
    DateRuns(s, p, m);
    MatchAtRuns(s, p, |m.day|, |m.month|);
  }

  /** An occurrence of the pattern, read as the matcher reads it. */
  lemma DateRuns(s: string, p: nat, m: DateText)
    requires IsDateAt(s, p, m)
    ensures var q, y := p + |m.day| + 1, p + |m.day| + 1 + |m.month| + 1;
      && RunBeforeSlash(s, p) == |m.day| && s[p..p + |m.day|] == m.day
      && RunBeforeSlash(s, q) == |m.month| && s[q..q + |m.month|] == m.month
      && YearAt(s, y) && s[y..y + 4] == m.year
  {
    var d, mo := |m.day|, |m.month|;
    DateSplit(m);
    OccursSplit(s, m.day + "/", (m.month + "/") + m.year, p);
    OccursSplit(s, m.month + "/", m.year, p + d + 1);
    RunBeforeSlashTakesRun(s, p, m.day);
    RunBeforeSlashTakesRun(s, p + d + 1, m.month);
    YearDigits(s, p + d + 1 + mo + 1, m.year);
  }

  /** Four digits occurring at `y` are a year there. */
  lemma YearDigits(s: string, y: nat, year: string)
    requires |year| == 4 && AllDigits(year) && OccursAt(s, year, y)
    ensures YearAt(s, y) && s[y..y + 4] == year
  {
    OccursChars(s, year, y);
    assert IsDigit(year[0]) && IsDigit(year[1]) && IsDigit(year[2]) && IsDigit(year[3]);
  }

  lemma DateSplit(m: DateText)
    ensures m.day + "/" + m.month + "/" + m.year == (m.day + "/") + ((m.month + "/") + m.year)
  {
  }

  /** What the matcher returns once the three runs are known. */
  lemma MatchAtRuns(s: string, p: nat, d: nat, mo: nat)
    requires RunBeforeSlash(s, p) == d > 0 && RunBeforeSlash(s, p + d + 1) == mo > 0
    requires YearAt(s, p + d + 1 + mo + 1)
    ensures MatchAt(s, p) == Some(DateText(s[p..p + d], s[p + d + 1..p + d + 1 + mo],
                                           s[p + d + 1 + mo + 1..p + d + 1 + mo + 1 + 4]))
  {
  }

  /** The leftmost match at or after `p`, with where it starts. */
  function FindFrom(s: string, p: nat): (r: Option<(nat, DateText)>)
    requires p <= |s|
    decreases |s| - p
    ensures r.Some? ==> p <= r.value.0 < |s| && MatchAt(s, r.value.0) == Some(r.value.1)
    ensures r.Some? ==> forall q | p <= q < r.value.0 :: MatchAt(s, q).None?
    ensures r.None? ==> forall q | p <= q < |s| :: MatchAt(s, q).None?
  {
    if p == |s| then None
    else if MatchAt(s, p).Some? then Some((p, MatchAt(s, p).value))
    else FindFrom(s, p + 1)
  }

  /** `inputDate.match(dateRegex)[0]`: the first match, if any. */
  function FindDate(s: string): Option<DateText>
  {
    if FindFrom(s, 0).Some? then Some(FindFrom(s, 0).value.1) else None
  }

  /** A date is found exactly when the text contains the pattern, and the
      one found is the leftmost occurrence. */
  lemma FindDateIsLeftmost(s: string)
    ensures FindDate(s).None? <==> forall p: nat, m | p < |s| :: !IsDateAt(s, p, m)
    ensures FindDate(s).Some? ==> exists p: nat | p < |s| ::
      IsDateAt(s, p, FindDate(s).value) && forall q: nat, m | q < p :: !IsDateAt(s, q, m)
  {
    if FindDate(s).None? {
      forall p: nat, m | p < |s|
        ensures !IsDateAt(s, p, m)
      {
        if IsDateAt(s, p, m) {
          MatchAtFindsEveryDate(s, p, m);
        }
      }
    } else {
      var p := FindFrom(s, 0).value.0;
      forall q: nat, m | q < p
        ensures !IsDateAt(s, q, m)
      {
        if IsDateAt(s, q, m) {
          MatchAtFindsEveryDate(s, q, m);
        }
      }
    }
  }

  // ---------------------------------------------------------------------
  // Validation.

  datatype Ymd = Ymd(day: int, month: int, year: int)

  lemma {:induction false} DigitsValueBound(s: string, bound: nat)
    requires AllDigits(s)
    requires bound == if |s| == 1 then 10 else if |s| == 2 then 100 else 10000
    requires 1 <= |s| <= 2 || |s| == 4
    ensures DigitsValue(s) < bound
  {
    var init := s[..|s| - 1];
    if |s| == 2 {
      assert DigitsValue(init) < 10;
    } else if |s| == 4 {
      var init2 := init[..|init| - 1];
      var init3 := init2[..|init2| - 1];
      assert DigitsValue(init3[..0]) == 0;
      assert DigitsValue(init3) < 10;
      assert DigitsValue(init2) < 100;
      assert DigitsValue(init) < 1000;
    }
  }

  /** The numbers `parseInt` reads from the three runs. Digit runs always
      parse, so the source's `isNaN` check never fires. */
  function DateValues(m: DateText): (r: Ymd)
    requires AllDigits(m.day) && AllDigits(m.month) && AllDigits(m.year)
    requires 1 <= |m.day| <= 2 && 1 <= |m.month| <= 2 && |m.year| == 4
    ensures 0 <= r.day <= 99 && 0 <= r.month <= 99 && 0 <= r.year <= 9999
  {
    DigitsValueBound(m.day, if |m.day| == 1 then 10 else 100);
    DigitsValueBound(m.month, if |m.month| == 1 then 10 else 100);
    DigitsValueBound(m.year, 10000);
    Ymd(DigitsValue(m.day), DigitsValue(m.month), DigitsValue(m.year))
  }

  predicate InRange(v: Ymd)
  {
    1 <= v.day <= 31 && 1 <= v.month <= 12 && 1 <= v.year <= 9999
  }

  /** The checks the modal runs on the typed text, in order: not empty,
      contains the pattern, numbers in range. The range check does not know
      month lengths. */
  function ValidateDate(field: string): (r: Result<Ymd, string>)
    ensures r.Ok? ==> InRange(r.value)
    ensures r == Err(NoDateReply) <==> field == []
    ensures r.Err? ==> r.error == NoDateReply || r.error == InvalidDateReply
  {
    if field == [] then Err(NoDateReply)
    else
      var found := FindDate(field);
      if found.None? then Err(InvalidDateReply)
      else
        var v := DateValues(found.value);
        if v.day < 1 || v.day > 31 || v.month < 1 || v.month > 12 || v.year < 1 || v.year > 9999
        then Err(InvalidDateReply)
        else Ok(v)
  }

  /** A non-empty text is accepted exactly when its first `d/m/yyyy`
      occurrence reads as an in-range date, and then that date is the one
      used. */
  lemma AcceptedIffFirstMatchInRange(field: string)
    requires field != []
    ensures ValidateDate(field).Ok? <==> FindDate(field).Some? && InRange(DateValues(FindDate(field).value))
    ensures ValidateDate(field).Ok? ==> ValidateDate(field).value == DateValues(FindDate(field).value)
  {
  }

  /** `31/02/2024` passes: there is no 31st of February, but the checks
      only bound the day by 31. */
  lemma NonexistentDayAccepted()
    ensures ValidateDate("31/02/2024") == Ok(Ymd(31, 2, 2024))
  {
    var s := "31/02/2024";
    MatchAtFindsEveryDate(s, 0, DateText("31", "02", "2024"));
    NonexistentDayDigits();
  }

  lemma NonexistentDayDigits()
    ensures DigitsValue("31") == 31 && DigitsValue("02") == 2 && DigitsValue("2024") == 2024
  {
    assert DigitsValue("31") == 31 by { assert "31"[..1] == "3"; assert "3"[..0] == ""; }
    assert DigitsValue("02") == 2 by { assert "02"[..1] == "0"; assert "0"[..0] == ""; }
    assert DigitsValue("2024") == 2024 by {
      assert "2024"[..3] == "202";
      assert "202"[..2] == "20";
      assert "20"[..1] == "2";
      assert "2"[..0] == "";
    }
  }

  /** The match starts as far left as it can: in `111/11/2024` the day is
      11, read from the second digit, and not 1. */
  lemma LeftmostMatchUsed()
    ensures FindDate("111/11/2024") == Some(DateText("11", "11", "2024"))
  {
    var s := "111/11/2024";
    assert RunBeforeSlash(s, 0) == 0 by { assert s[2] == '1' && s[1] == '1'; }
    MatchAtFindsEveryDate(s, 1, DateText("11", "11", "2024"));
    assert FindFrom(s, 0) == FindFrom(s, 1);
  }

  /** Text before and after the date is ignored. */
  lemma SurroundingTextIgnored()
    ensures FindDate("on 1/2/2024!") == Some(DateText("1", "2", "2024"))
  {
    var t := "on 1/2/2024!";
    assert RunBeforeSlash(t, 0) == 0 by { assert t[0] == 'o'; }
    assert RunBeforeSlash(t, 1) == 0 by { assert t[1] == 'n'; }
    assert RunBeforeSlash(t, 2) == 0 by { assert t[2] == ' '; }
    assert t[3..11] == "1/2/2024";
    MatchAtFindsEveryDate(t, 3, DateText("1", "2", "2024"));
    assert FindFrom(t, 0) == FindFrom(t, 1) == FindFrom(t, 2) == FindFrom(t, 3);
  }

  /** A day or month of 0 is rejected though the pattern matches it. */
  lemma ZeroDayRejected()
    ensures ValidateDate("0/1/2024") == Err(InvalidDateReply)
  {
    MatchAtFindsEveryDate("0/1/2024", 0, DateText("0", "1", "2024"));
    assert DigitsValue("0") == 0 by { assert "0"[..0] == ""; }
  }

  // ---------------------------------------------------------------------
  // The day window.

  /** `createdAt >= date && createdAt < date + 24 h`. */
  predicate InDay(t: int, start: int)
  {
    start <= t < start + DayMs
  }

  /** The samples the query returns for the day starting at `start`. The
      body is the definition of the order: the selected samples in stored
      order, each as often as it is stored. */
  function DaySamples(samples: seq<PlayerCount>, start: int): (r: seq<PlayerCount>)
    ensures |r| <= |samples|
    ensures forall x :: x in r <==> x in samples && InDay(x.createdAt, start)
    ensures multiset(r) <= multiset(samples)
  {
    if samples == [] then []
    else
      var rest := DaySamples(samples[1..], start);
      assert forall x :: x in samples <==> x == samples[0] || x in samples[1..];
      assert samples == [samples[0]] + samples[1..];
      if InDay(samples[0].createdAt, start) then [samples[0]] + rest else rest
  }

  /** A day has no samples exactly when no stored sample falls in it. */
  lemma EmptyDayIffNoSampleInside(samples: seq<PlayerCount>, start: int)
    ensures DaySamples(samples, start) == [] <==> forall x | x in samples :: !InDay(x.createdAt, start)
  {
    var w := DaySamples(samples, start);
    if w != [] {
      assert w[0] in w;
    }
  }

  /** Consecutive days split the samples between them: none is in both. */
  lemma ConsecutiveDaysDisjoint(samples: seq<PlayerCount>, start: int)
    ensures forall x :: x in DaySamples(samples, start) ==> x !in DaySamples(samples, start + DayMs)
    ensures forall x | x in samples && InDay(x.createdAt, start) :: x !in DaySamples(samples, start + DayMs)
  {
  }

  // ---------------------------------------------------------------------
  // The peak maximum, `playerCounts.sort((a, b) => b.maxPlayers - a.maxPlayers)[0].maxPlayers`.

  /** Largest `maxPlayers` first. */
  function ByMaxPlayersDesc(): (PlayerCount, PlayerCount) -> bool
  {
    (a: PlayerCount, b: PlayerCount) => a.maxPlayers >= b.maxPlayers
  }

  lemma ByMaxPlayersDescIsTotalPreorder()
    ensures TotalPreorder(ByMaxPlayersDesc())
  {
  }

  /** The head of the descending sort carries the largest `maxPlayers`. */
  lemma PeakIsLargestMaxPlayers(s: seq<PlayerCount>)
    requires |s| > 0
    ensures forall i | 0 <= i < |s| :: s[i].maxPlayers <= Sort(s, ByMaxPlayersDesc())[0].maxPlayers
    ensures exists i | 0 <= i < |s| :: s[i].maxPlayers == Sort(s, ByMaxPlayersDesc())[0].maxPlayers
  {
    var t := Sort(s, ByMaxPlayersDesc());
    ByMaxPlayersDescIsTotalPreorder();
    SortSorted(s, ByMaxPlayersDesc());
    forall i | 0 <= i < |s|
      ensures s[i].maxPlayers <= t[0].maxPlayers
    {
      assert s[i] in multiset(t);
      var j :| 0 <= j < |t| && t[j] == s[i];
      if j > 0 {
        assert ByMaxPlayersDesc()(t[0], t[j]);
      }
    }
    assert t[0] in multiset(s);
  }

  /** Line 163: the descending sort reorders the caller's array. */
  method PeakMaxPlayers(counts: array<PlayerCount>) returns (peak: int)
    requires counts.Length > 0
    modifies counts
    ensures counts[..] == Sort(old(counts[..]), ByMaxPlayersDesc())
    ensures peak == counts[0].maxPlayers
    ensures forall i | 0 <= i < counts.Length :: old(counts[i]).maxPlayers <= peak
  {
    ghost var before := counts[..];
    SortInPlace(counts, ByMaxPlayersDesc());
    peak := counts[0].maxPlayers;
    PeakIsLargestMaxPlayers(before);
  }

  // ---------------------------------------------------------------------
  // The handler.

  /** The submit the handler acts on: the day-picker modal, sent from a
      message. */
  predicate IsDaySubmit(ix: Interaction)
  {
    ix.ModalSubmit? && ix.customId == DayPickerModalId && ix.fromMessage
  }

  /** `new Date(year, month - 1, day)` in milliseconds, given the local
      calendar `localMidnight(year, monthIndex, day)`. */
  function DayStart(v: Ymd, localMidnight: (int, int, int) -> int): int
  {
    localMidnight(v.year, v.month - 1, v.day)
  }

  /** What the handler answers. `stored` is the status row whose message the
      modal came from, with all its samples; `queryFails` says the database
      query throws; `dateText` renders a date as `toDateString` does. The
      day's samples are sorted by peak maximum and then, by the chart, by
      time; the embed sees them in that final order. */
  function Respond(
    ix: Interaction,
    stored: Option<(StatusRow, seq<PlayerCount>)>,
    queryFails: bool,
    localMidnight: (int, int, int) -> int,
    dateText: int -> string,
    now: int,
    collate: (string, string) -> bool): ModalReply
  {
    if ix.ButtonPress? && ix.customId == DayPickerButtonId then ShowDayPicker
    else if !IsDaySubmit(ix) then NotHandled
    else if ValidateDate(ix.dateField).Err? then Reply(ValidateDate(ix.dateField).error)
    else
      var start := DayStart(ValidateDate(ix.dateField).value, localMidnight);
      if queryFails then EditReply(FetchFailedReply)
      else if stored.None? then EditReply(NoStatusReply)
      else
        var window := DaySamples(stored.value.1, start);
        if window == [] then EditReply("No player counts found for " + dateText(start) + "!")
        else
          var byPeak := Sort(window, ByMaxPlayersDesc());
          var byTime := Sort(byPeak, Chart.ByTime());
          var chart := Chart.ChartOf(byTime, Chart.MaxPair(stored.value.0.showMaxPlayers, byPeak[0].maxPlayers), (false, -1));
          var embed := Embed.EmbedOf(Embed.StatusView(stored.value.0, byTime), Some(dateText(start)), now, collate);
          if embed.Err? then EditReply(FetchFailedReply) else EditReplyEmbed(embed.value, chart)
  }

  /** The imperative rendering of `Respond`: the handler's early returns and
      in-place sorts in the source's order, proved to answer as `Respond`
      specifies. */
  method HandleInteraction(
    ix: Interaction,
    stored: Option<(StatusRow, seq<PlayerCount>)>,
    queryFails: bool,
    localMidnight: (int, int, int) -> int,
    dateText: int -> string,
    now: int,
    collate: (string, string) -> bool)
    returns (reply: ModalReply)
    ensures reply == Respond(ix, stored, queryFails, localMidnight, dateText, now, collate)
  {
    if ix.ButtonPress? && ix.customId == DayPickerButtonId {
      return ShowDayPicker;
    }
    if !IsDaySubmit(ix) {
      return NotHandled;
    }
    var date := ValidateDate(ix.dateField);
    if date.Err? {
      return Reply(date.error);
    }
    var start := DayStart(date.value, localMidnight);
    if queryFails {
      return EditReply(FetchFailedReply);
    }
    if stored.None? {
      return EditReply(NoStatusReply);
    }
    var row := stored.value.0;
    var window := DaySamples(stored.value.1, start);
    if |window| == 0 {
      return EditReply("No player counts found for " + dateText(start) + "!");
    }
    var counts := new PlayerCount[|window|](i requires 0 <= i < |window| => window[i]);
    assert counts[..] == window;
    var peak := PeakMaxPlayers(counts);
    var chart := Chart.CreatePlayerCountChart(counts, Chart.MaxPair(row.showMaxPlayers, peak));
    var embed := Embed.CreateEmbed(Embed.StatusView(row, counts[..]), Some(dateText(start)), now, collate);
    if embed.Err? {
      return EditReply(FetchFailedReply);
    }
    reply := EditReplyEmbed(embed.value, chart);
  }

  // ---------------------------------------------------------------------
  // What the handler promises.

  /** Only the history button opens the picker. */
  lemma OnlyHistoryButtonOpensPicker(
    ix: Interaction, stored: Option<(StatusRow, seq<PlayerCount>)>, queryFails: bool,
    localMidnight: (int, int, int) -> int, dateText: int -> string, now: int, collate: (string, string) -> bool)
    ensures Respond(ix, stored, queryFails, localMidnight, dateText, now, collate) == ShowDayPicker
        <==> ix.ButtonPress? && ix.customId == "showDayPickerModal"
  {
  }

  /** An empty field, or one without an in-range date, is answered before
      anything is looked up. */
  lemma BadDateAnsweredFirst(
    ix: Interaction, stored: Option<(StatusRow, seq<PlayerCount>)>, queryFails: bool,
    localMidnight: (int, int, int) -> int, dateText: int -> string, now: int, collate: (string, string) -> bool)
    requires IsDaySubmit(ix)
    ensures ix.dateField == [] ==>
      Respond(ix, stored, queryFails, localMidnight, dateText, now, collate) == Reply("You didn't enter a date!")
    ensures ix.dateField != [] && FindDate(ix.dateField).None? ==>
      Respond(ix, stored, queryFails, localMidnight, dateText, now, collate) == Reply("You didn't enter a valid date!")
    ensures Respond(ix, stored, queryFails, localMidnight, dateText, now, collate).Reply? <==> ValidateDate(ix.dateField).Err?
  {
  }

  /** A day without samples gets a text and no chart. */
  lemma EmptyDayHasNoChart(
    ix: Interaction, row: StatusRow, samples: seq<PlayerCount>,
    localMidnight: (int, int, int) -> int, dateText: int -> string, now: int, collate: (string, string) -> bool)
    requires IsDaySubmit(ix) && ValidateDate(ix.dateField).Ok?
    requires var start := DayStart(ValidateDate(ix.dateField).value, localMidnight);
      forall x | x in samples :: !InDay(x.createdAt, start)
    ensures var start := DayStart(ValidateDate(ix.dateField).value, localMidnight);
      Respond(ix, Some((row, samples)), false, localMidnight, dateText, now, collate)
        == EditReply("No player counts found for " + dateText(start) + "!")
  {
    var start := DayStart(ValidateDate(ix.dateField).value, localMidnight);
    EmptyDayIffNoSampleInside(samples, start);
  }

  /** The chart of a day: the pair lands in the `online` position, so the
      line is always in the online colour and the y axis ends 5 above the
      day's peak player count; the day's samples run oldest to newest. */
  lemma DayChart(
    ix: Interaction, stored: Option<(StatusRow, seq<PlayerCount>)>,
    localMidnight: (int, int, int) -> int, dateText: int -> string, now: int, collate: (string, string) -> bool)
    requires Respond(ix, stored, false, localMidnight, dateText, now, collate).EditReplyEmbed?
    ensures IsDaySubmit(ix) && ValidateDate(ix.dateField).Ok? && stored.Some?
    ensures var window := DaySamples(stored.value.1, DayStart(ValidateDate(ix.dateField).value, localMidnight));
      var chart := Respond(ix, stored, false, localMidnight, dateText, now, collate).chart;
      && window != []
      && chart.borderColour == OnlineColour
      && chart.yMin == 0
      && chart.yMax == Chart.MaxPlayerCount(window) + 5
      && |chart.labels| == |window|
      && forall i, j | 0 <= i < j < |chart.labels| :: chart.labels[i] <= chart.labels[j]
  {
    var window := DaySamples(stored.value.1, DayStart(ValidateDate(ix.dateField).value, localMidnight));
    var byPeak := Sort(window, ByMaxPlayersDesc());
    var pair := Chart.MaxPair(stored.value.0.showMaxPlayers, byPeak[0].maxPlayers);
    Chart.SortedChartAxis(byPeak, pair);
    Chart.MaxIgnoresOrder(window, byPeak);
    Chart.ChartLabelsAscending(byPeak, pair, (false, -1));
  }
}
