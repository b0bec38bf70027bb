/** The helpers of the recent-orders card: how long ago an order was
    placed, in whole minutes, hours or days, and the colour classes of an
    order's status. */
module RecentOrders {
  import opened Collections
  import opened JsText
  import opened ClientNlp
  import OrderService

  const MsPerMinute := 1000 * 60
  const MsPerHour := 1000 * 60 * 60
  const MsPerDay := 1000 * 60 * 60 * 24

  datatype TimeUnit = Minute | Hour | Day
  {
    function Word(): string
    {
      match this
      case Minute => "minute"
      case Hour => "hour"
      case Day => "day"
    }

    /** The unit's length in milliseconds. */
    function Millis(): int
    {
      match this
      case Minute => MsPerMinute
      case Hour => MsPerHour
      case Day => MsPerDay
    }
  }

  /** A whole number of units. */
  datatype Elapsed = Elapsed(count: int, unit: TimeUnit)

  /** The bucket `formatRelativeTime` picks for a difference of `diffMs`
      milliseconds. `Math.floor` of a quotient by a positive divisor is
      Dafny's `/`, also for a negative difference. */
  function ElapsedOf(diffMs: int): Elapsed
  {
    var diffMins := diffMs / MsPerMinute;
    var diffHours := diffMs / MsPerHour;
    var diffDays := diffMs / MsPerDay;
    if diffMins < 60 then Elapsed(diffMins, Minute)
    else if diffHours < 24 then Elapsed(diffHours, Hour)
    else Elapsed(diffDays, Day)
  }

  /** `${n} unit${n !== 1 ? 's' : ''} ago`. */
  function Phrase(e: Elapsed): string
  {
    IntToString(e.count) + " " + e.unit.Word() + (if e.count != 1 then "s" else "") + " ago"
  }

  /** `formatRelativeTime`, given `now.getTime() - past.getTime()`: the
      text reads back, through `parseInt`, as the number of whole units
      elapsed and is plural exactly when that number is not 1. The unit
      word is "minute" below one hour (fewer than 60 of them), "hour" from
      one hour to below one day (1 to 23) and "day" from one day on. */
  function FormatRelativeTime(diffMs: int): (r: string)
    ensures ParseInt(r) == Some(ElapsedOf(diffMs).count)
    ensures |r| >= 5 && (r[|r| - 5..] == "s ago" <==> ElapsedOf(diffMs).count != 1)
    ensures diffMs < MsPerHour ==> Includes(r, " minute") && ElapsedOf(diffMs).count < 60
    ensures MsPerHour <= diffMs < MsPerDay ==> Includes(r, " hour") && 1 <= ElapsedOf(diffMs).count < 24
    ensures MsPerDay <= diffMs ==> Includes(r, " day") && 1 <= ElapsedOf(diffMs).count
  {
    PhraseReadsBack(ElapsedOf(diffMs));
    PhrasePlural(ElapsedOf(diffMs));
    PhraseWord(ElapsedOf(diffMs));
    ElapsedRanges(diffMs);
    Phrase(ElapsedOf(diffMs))
  }

  /** The phrase names its unit right after the count. */
  lemma PhraseWord(e: Elapsed)
    ensures e.unit == Minute ==> Includes(Phrase(e), " minute")
    ensures e.unit == Hour ==> Includes(Phrase(e), " hour")
    ensures e.unit == Day ==> Includes(Phrase(e), " day")
  {
    var p := Phrase(e);
    var n := IntToString(e.count);
    var w := " " + e.unit.Word();
    assert p == n + w + ((if e.count != 1 then "s" else "") + " ago");
    assert p[|n|..|n| + |w|] == w;
    assert OccursAt(p, w, |n|);
    match e.unit
    case Minute => assert w == " minute";
    case Hour => assert w == " hour";
    case Day => assert w == " day";
  }

  /** Minutes are used below one hour, hours from one hour to below one
      day, days from one day on; the count is the number of whole units
      elapsed, below 60 for minutes, between 1 and 23 for hours and at least
      1 for days. */
  lemma ElapsedRanges(diffMs: int)
    ensures var e := ElapsedOf(diffMs);
            && (e.unit == Minute <==> diffMs < MsPerHour)
            && (e.unit == Hour <==> MsPerHour <= diffMs < MsPerDay)
            && (e.unit == Day <==> MsPerDay <= diffMs)
            && e.unit.Millis() * e.count <= diffMs < e.unit.Millis() * (e.count + 1)
            && (e.unit == Minute ==> e.count < 60)
            && (e.unit == Hour ==> 1 <= e.count < 24)
            && (e.unit == Day ==> 1 <= e.count)
  {
    var m, h, d := diffMs / MsPerMinute, diffMs / MsPerHour, diffMs / MsPerDay;
    assert m < 60 <==> diffMs < MsPerHour;
    assert h < 24 <==> diffMs < MsPerDay;
  }

  /** The rendered phrase reads back, through `parseInt`, as its count. */
  lemma PhraseReadsBack(e: Elapsed)
    ensures ParseInt(Phrase(e)) == Some(e.count)
  {
    var rest := " " + e.unit.Word() + (if e.count != 1 then "s" else "") + " ago";
    assert Phrase(e) == IntToString(e.count) + rest;
    ParseIntThen(e.count, rest);
  }

  /** The phrase is in the plural exactly when the count is not 1; no unit
      word ends in `s` by itself. */
  lemma PhrasePlural(e: Elapsed)
    ensures var p := Phrase(e);
            |p| >= 5 && (p[|p| - 5..] == "s ago" <==> e.count != 1)
  {
    var p := Phrase(e);
    var w := e.unit.Word();
    var head := IntToString(e.count) + " " + w;
    assert w[|w| - 1] != 's';
    if e.count != 1 {
      assert p == head + "s ago";
      assert p[|p| - 5..] == "s ago";
    } else {
      assert p == head + " ago";
      assert p[|p| - 5] == head[|head| - 1] == w[|w| - 1];
    }
  }

  /** `statusColors` of `getStatusBadgeClass`. */
  const StatusColors: LabelTable := [
    ("completed", "bg-green-100 text-green-800"),
    ("processing", "bg-amber-100 text-amber-800"),
    ("shipped", "bg-blue-100 text-blue-800"),
    ("pending", "bg-gray-100 text-gray-800"),
    ("cancelled", "bg-red-100 text-red-800")
  ]

  /** `bgColors` of `getIconBgClass`. */
  const BgColors: LabelTable := [
    ("completed", "bg-green-100"),
    ("processing", "bg-amber-100"),
    ("shipped", "bg-blue-100"),
    ("pending", "bg-gray-100"),
    ("cancelled", "bg-red-100")
  ]

  /** `iconColors` of `getIconColorClass`. */
  const IconColors: LabelTable := [
    ("completed", "text-green-500"),
    ("processing", "text-amber-500"),
    ("shipped", "text-blue-500"),
    ("pending", "text-gray-500"),
    ("cancelled", "text-red-500")
  ]

  const DefaultBadge := "bg-gray-100 text-gray-800"
  const DefaultIconBg := "bg-gray-100"
  const DefaultIconColor := "text-gray-500"

  /** The statuses the three tables list, in their order. */
  const ClassStatuses: seq<string> := ["completed", "processing", "shipped", "pending", "cancelled"]

  /** `getStatusBadgeClass`: each of the five statuses gets its own class from
      the table, any other status the gray default. */
  function StatusBadgeClass(status: string): (r: string)
    ensures forall i :: 0 <= i < |ClassStatuses| && ClassStatuses[i] == status ==> r == StatusColors[i].1
    ensures status !in ClassStatuses ==> r == DefaultBadge
  {
    ClassTablesCover();
    LookupOrSpec(StatusColors, status, DefaultBadge);
    assert forall i :: 0 <= i < |ClassStatuses| ==> StatusColors[i].0 == Keys(StatusColors)[i];
    LookupOr(StatusColors, status, DefaultBadge)
  }

  /** `getIconBgClass`: each of the five statuses gets its own class from
      the table, any other status the gray default. */
  function IconBgClass(status: string): (r: string)
    ensures forall i :: 0 <= i < |ClassStatuses| && ClassStatuses[i] == status ==> r == BgColors[i].1
    ensures status !in ClassStatuses ==> r == DefaultIconBg
  {
    ClassTablesCover();
    LookupOrSpec(BgColors, status, DefaultIconBg);
    assert forall i :: 0 <= i < |ClassStatuses| ==> BgColors[i].0 == Keys(BgColors)[i];
    LookupOr(BgColors, status, DefaultIconBg)
  }

  /** `getIconColorClass`: each of the five statuses gets its own class from
      the table, any other status the gray default. */
  function IconColorClass(status: string): (r: string)
    ensures forall i :: 0 <= i < |ClassStatuses| && ClassStatuses[i] == status ==> r == IconColors[i].1
    ensures status !in ClassStatuses ==> r == DefaultIconColor
  {
    ClassTablesCover();
    LookupOrSpec(IconColors, status, DefaultIconColor);
    assert forall i :: 0 <= i < |ClassStatuses| ==> IconColors[i].0 == Keys(IconColors)[i];
    LookupOr(IconColors, status, DefaultIconColor)
  }

  /** The three tables list the same five statuses, the ones an order can
      be counted under, each once and each with a class. */
  lemma ClassTablesCover()
    ensures Keys(StatusColors) == Keys(BgColors) == Keys(IconColors) == ClassStatuses
    ensures WellFormed(StatusColors) && WellFormed(BgColors) && WellFormed(IconColors)
    ensures forall s :: s in ClassStatuses <==> s in OrderService.OrderStatuses
  {
  }
}
