/** The parameters `createPlayerCountChart` gives its line chart: the
    caller's samples sorted in place by time, one label and one value per
    sample, one line colour, and a y axis from 0 to the maximum plus 5.
    Drawing the chart into a PNG is not modelled. */
module Chart {
  import opened Records
  import opened Sorting
  import opened Consts

  /** What arrives in the `online` parameter. The updater passes a boolean;
      the other callers pass their `[flag, max]` pair in that position, and a
      JavaScript array is truthy whatever it holds. */
  datatype OnlineArg = Flag(b: bool) | MaxPair(show: bool, max: int)

  predicate OnlineTruthy(online: OnlineArg)
  {
    online.MaxPair? || online.b
  }

  /** What the chart is built from. Labels are the sample times (rendered
      as ISO text by the source), values the player counts. */
  datatype LineChart = LineChart(
    labels: seq<int>,
    values: seq<int>,
    borderColour: Colour,
    yMin: int,
    yMax: int)

  /** The comparator `a.createdAt - b.createdAt`: oldest first. */
  function ByTime(): (PlayerCount, PlayerCount) -> bool
  {
    (a: PlayerCount, b: PlayerCount) => a.createdAt <= b.createdAt
  }

  lemma ByTimeIsTotalPreorder()
    ensures TotalPreorder(ByTime())
  {
  }

  /** `Math.max` over the player counts of a non-empty sequence. */
  function MaxPlayerCount(data: seq<PlayerCount>): (m: int)
    requires |data| > 0
    ensures forall i | 0 <= i < |data| :: data[i].playerCount <= m
    ensures exists i | 0 <= i < |data| :: data[i].playerCount == m
  {
    if |data| == 1 then data[0].playerCount
    else
      var rest := MaxPlayerCount(data[1..]);
      assert forall i | 1 <= i < |data| :: data[i] == data[1..][i - 1];
      if data[0].playerCount >= rest then data[0].playerCount else rest
  }

  /** The chart drawn from `data` in the order given. `Math.max()` of no
      values is -Infinity, so without a caller-given maximum the data must
      not be empty. */
  function ChartOf(data: seq<PlayerCount>, online: OnlineArg, showMax: (bool, int)): (c: LineChart)
    requires showMax.0 || |data| > 0
    ensures |c.labels| == |data| && |c.values| == |data|
    ensures forall i | 0 <= i < |data| ::
      c.labels[i] == data[i].createdAt && c.values[i] == data[i].playerCount
    ensures c.borderColour == (if OnlineTruthy(online) then OnlineColour else OfflineColour)
    ensures c.yMin == 0
    ensures showMax.0 ==> c.yMax == showMax.1 + 5
    ensures !showMax.0 ==> forall i | 0 <= i < |data| :: c.values[i] + 5 <= c.yMax
    ensures !showMax.0 ==> exists i | 0 <= i < |data| :: c.values[i] + 5 == c.yMax
  {
    var top := if showMax.0 then showMax.1 else MaxPlayerCount(data);
    LineChart(
      seq(|data|, i requires 0 <= i < |data| => data[i].createdAt),
      seq(|data|, i requires 0 <= i < |data| => data[i].playerCount),
      if OnlineTruthy(online) then OnlineColour else OfflineColour,
      0,
      top + 5)
  }

  /** `createPlayerCountChart(data, online, showMaxPlayers = [false, -1])`:
      sorts the caller's array by time, in place, then reads the chart off it. */
  method CreatePlayerCountChart(data: array<PlayerCount>, online: OnlineArg, showMax: (bool, int) := (false, -1))
    returns (chart: LineChart)
    requires showMax.0 || data.Length > 0
    modifies data
    ensures data[..] == Sort(old(data[..]), ByTime())
    ensures chart == ChartOf(data[..], online, showMax)
  {
    SortInPlace(data, ByTime());
    chart := ChartOf(data[..], online, showMax);
  }

  /** Labels of the chart drawn after the sort run oldest to newest. */
  lemma ChartLabelsAscending(data: seq<PlayerCount>, online: OnlineArg, showMax: (bool, int))
    requires showMax.0 || |data| > 0
    ensures var c := ChartOf(Sort(data, ByTime()), online, showMax);
      forall i, j | 0 <= i < j < |c.labels| :: c.labels[i] <= c.labels[j]
  {
    var s := Sort(data, ByTime());
    ByTimeIsTotalPreorder();
    SortSorted(data, ByTime());
    var c := ChartOf(s, online, showMax);
    forall i, j | 0 <= i < j < |c.labels|
      ensures c.labels[i] <= c.labels[j]
    {
      assert ByTime()(s[i], s[j]);
      ByTimeMeans(s[i], s[j]);
    }
  }

  lemma ByTimeMeans(a: PlayerCount, b: PlayerCount)
    ensures ByTime()(a, b) <==> a.createdAt <= b.createdAt
  {
  }

  /** The peak of a sequence depends only on its elements, not their order. */
  lemma MaxIgnoresOrder(a: seq<PlayerCount>, b: seq<PlayerCount>)
    requires |a| > 0 && multiset(a) == multiset(b)
    ensures |b| > 0
    ensures MaxPlayerCount(a) == MaxPlayerCount(b)
  {
    assert a[0] in multiset(b);
    var ma, mb := MaxPlayerCount(a), MaxPlayerCount(b);
    var i :| 0 <= i < |a| && a[i].playerCount == ma;
    var j :| 0 <= j < |b| && b[j].playerCount == mb;
    assert a[i] in multiset(b);
    assert b[j] in multiset(a);
    var j' :| 0 <= j' < |b| && b[j'] == a[i];
    var i' :| 0 <= i' < |a| && a[i'] == b[j];
  }

  /** Without a caller-given maximum the y axis ends 5 above the peak player
      count of the input, whatever order the input arrived in. */
  lemma SortedChartAxis(data: seq<PlayerCount>, online: OnlineArg)
    requires |data| > 0
    ensures ChartOf(Sort(data, ByTime()), online, (false, -1)).yMax == MaxPlayerCount(data) + 5
  {
    MaxIgnoresOrder(data, Sort(data, ByTime()));
  }

  /** Input already in time order (the updater fetches it that way) is left
      as it was, so the chart shows it as fetched. */
  lemma TimeOrderedInputUnchanged(data: seq<PlayerCount>)
    requires forall i, j | 0 <= i < j < |data| :: data[i].createdAt <= data[j].createdAt
    ensures Sort(data, ByTime()) == data
  {
    forall i, j | 0 <= i < j < |data|
      ensures ByTime()(data[i], data[j])
    {
      ByTimeMeans(data[i], data[j]);
    }
    SortOfSorted(data, ByTime());
  }

  /** Samples taken at the same instant keep their input order. */
  lemma SameTimeKeepsOrder(data: seq<PlayerCount>, x: PlayerCount)
    ensures EquivClass(Sort(data, ByTime()), x, ByTime()) == EquivClass(data, x, ByTime())
  {
    ByTimeIsTotalPreorder();
    SortStable(data, x, ByTime());
  }
}
