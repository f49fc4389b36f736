/** The panchang service: normalising a fetched day record (festival list and
    muhurats), the auspicious-period rule table, festival muhurats, and the
    day-by-day weekly and monthly collection loops. The remote fetch of one
    day's record is a function from the day to an optional record. */
module PanchangService {
  import opened Seqs
  import opened Text

  // ---------------------------------------------------------------- records

  /** The `festivals` column as stored: comma-separated text, an array, or absent. */
  datatype FestivalsField = FestivalsText(text: string) | FestivalsList(names: seq<string>) | FestivalsMissing

  /** The `muhurats` column as stored: JSON text, an array of entries, or absent. */
  datatype MuhuratsField<M> = MuhuratsText(json: string) | MuhuratsList(items: seq<M>) | MuhuratsMissing

  /** A `panchang` row as fetched; `M` is whatever one muhurat entry holds. */
  datatype PanchangRow<M> = PanchangRow(
    Id: int, date: string, tithi: string, nakshatra: string, yoga: string, karana: string,
    sunrise: string, sunset: string, moonrise: string, moonset: string,
    festivals: FestivalsField, muhurats: MuhuratsField<M>)

  /** A day's panchang as the service returns it: festivals and muhurats are arrays. */
  datatype Panchang<M> = Panchang(
    Id: int, date: string, tithi: string, nakshatra: string, yoga: string, karana: string,
    sunrise: string, sunset: string, moonrise: string, moonset: string,
    festivals: seq<string>, muhurats: seq<M>)

  predicate IsNonEmpty(s: string)
  {
    s != ""
  }

  /** A festival name as stored in a list: not blank and without surrounding white space. */
  predicate IsFestivalName(name: string)
  {
    name != "" && !IsSpace(name[0]) && !IsSpace(name[|name| - 1])
  }

  function TrimAll(parts: seq<string>): (r: seq<string>)
    ensures |r| == |parts| && forall i :: 0 <= i < |r| ==> r[i] == Trim(parts[i])
  {
    seq(|parts|, i requires 0 <= i < |parts| => Trim(parts[i]))
  }

  /** A trimmed piece that is not empty is a festival name. */
  lemma TrimmedIsName(piece: string)
    ensures Trim(piece) != "" ==> IsFestivalName(Trim(piece))
  {
  }

  /** `f.split(',').map(f => f.trim()).filter(f => f)`: the trimmed pieces that are
      not empty; there are at most as many as pieces. */
  function FestivalNames(text: string): (r: seq<string>)
    ensures forall i :: 0 <= i < |r| ==> IsFestivalName(r[i])
    ensures |r| <= Occurrences(text, ',') + 1
  {
    var pieces := Split(text, ',');
    var parts := TrimAll(pieces);
    assert |parts| == Occurrences(text, ',') + 1 by {
      JoinSplit(text, ',');
    }
    forall i | 0 <= i < |parts| && IsNonEmpty(parts[i]) ensures IsFestivalName(parts[i]) {
      TrimmedIsName(pieces[i]);
    }
    FilterImplies(parts, IsNonEmpty, IsFestivalName);
    Filter(parts, IsNonEmpty)
  }

  /** `typeof f === 'string' ? <festival names> : f || []`. */
  function ParseFestivals(field: FestivalsField): (r: seq<string>)
    ensures field.FestivalsText? ==> r == FestivalNames(field.text)
    ensures field.FestivalsList? ==> r == field.names
    ensures field.FestivalsMissing? ==> r == []
  {
    match field
    case FestivalsText(text) => FestivalNames(text)
    case FestivalsList(names) => names
    case FestivalsMissing => []
  }

  lemma TrimKeepsFestivalName(name: string)
    requires IsFestivalName(name)
    ensures Trim(name) == name
  {
    assert TrimStart(name) == name;
    assert TrimEnd(name) == name;
  }

  lemma TrimAllKeepsNames(names: seq<string>)
    requires forall i :: 0 <= i < |names| ==> IsFestivalName(names[i])
    ensures TrimAll(names) == names
  {
    forall i | 0 <= i < |names|
      ensures Trim(names[i]) == names[i]
    {
      TrimKeepsFestivalName(names[i]);
    }
  }

  /** Festival names written back as comma-separated text parse to the same list. */
  lemma FestivalsRoundTrip(names: seq<string>)
    requires forall i :: 0 <= i < |names| ==> IsFestivalName(names[i]) && ',' !in names[i]
    ensures ParseFestivals(FestivalsText(Join(names, ','))) == names
  {
    if names == [] {
      assert Split("", ',') == [""];
      assert TrimAll([""]) == [""];
    } else {
      SplitJoin(names, ',');
      TrimAllKeepsNames(names);
      FilterKeepsAll(names, IsNonEmpty);
    }
  }

  /** Text holding only commas and white space names no festival. */
  lemma BlankFestivalText(text: string)
    requires forall i :: 0 <= i < |text| ==> IsSpace(text[i]) || text[i] == ','
    ensures ParseFestivals(FestivalsText(text)) == []
  {
    var parts := TrimAll(Split(text, ','));
    SplitBlank(text, ',');
    FilterKeepsNone(parts, IsNonEmpty);
  }

  /** `typeof m === 'string' ? JSON.parse(m || '[]') : m || []`; `parseJson` returns
      `None` where `JSON.parse` throws. */
  function ParseMuhurats<M>(field: MuhuratsField<M>, parseJson: string -> Option<seq<M>>): (r: Option<seq<M>>)
    ensures field.MuhuratsText? && field.json == "" ==> r == Some([])
    ensures field.MuhuratsText? && field.json != "" ==> r == parseJson(field.json)
    ensures field.MuhuratsList? ==> r == Some(field.items)
    ensures field.MuhuratsMissing? ==> r == Some([])
  {
    match field
    case MuhuratsText(json) => if json == "" then Some([]) else parseJson(json)
    case MuhuratsList(items) => Some(items)
    case MuhuratsMissing => Some([])
  }

  /** The record `getPanchangByDate` builds from a row: every column copied, festivals
      and muhurats made arrays. `None` where the muhurats JSON does not parse (the
      exception is caught and the method returns null). */
  function NormalizePanchang<M>(row: PanchangRow<M>, parseJson: string -> Option<seq<M>>): (r: Option<Panchang<M>>)
    ensures r.Some? <==> ParseMuhurats(row.muhurats, parseJson).Some?
    ensures r.Some? ==>
              r.value.Id == row.Id && r.value.date == row.date && r.value.tithi == row.tithi &&
              r.value.nakshatra == row.nakshatra && r.value.yoga == row.yoga && r.value.karana == row.karana &&
              r.value.sunrise == row.sunrise && r.value.sunset == row.sunset &&
              r.value.moonrise == row.moonrise && r.value.moonset == row.moonset &&
              r.value.festivals == ParseFestivals(row.festivals) &&
              r.value.muhurats == ParseMuhurats(row.muhurats, parseJson).value
  {
    match ParseMuhurats(row.muhurats, parseJson)
    case None => None
    case Some(muhurats) =>
      Some(Panchang(row.Id, row.date, row.tithi, row.nakshatra, row.yoga, row.karana,
                    row.sunrise, row.sunset, row.moonrise, row.moonset,
                    ParseFestivals(row.festivals), muhurats))
  }

  /** `getPanchangByDate` after the fetch: null when the response failed or holds no
      row, otherwise the first row normalised. */
  function PanchangFromResponse<M>(success: bool, data: Option<seq<PanchangRow<M>>>,
                                   parseJson: string -> Option<seq<M>>): (r: Option<Panchang<M>>)
    ensures !success || data.None? || data.value == [] ==> r == None
    ensures r.Some? ==> success && data.Some? && data.value != [] &&
                        r == NormalizePanchang(data.value[0], parseJson)
  {
    if !success then None
    else if data.None? || data.value == [] then None
    else NormalizePanchang(data.value[0], parseJson)
  }

  // ---------------------------------------------------------------- periods and muhurats

  /** One entry of `getAuspiciousPeriods`; `kind` is its `type` field. */
  datatype Period = Period(name: string, time: string, kind: string)

  const SiddhaYogaPeriod := Period("Siddha Yoga Period", "06:00 AM - 08:00 AM", "general")
  const AuspiciousNakshatraPeriod := Period("Auspicious Nakshatra", "10:00 AM - 12:00 PM", "nakshatra")

  predicate IsSiddhaYoga(yoga: string)
  {
    yoga == "Siddha" || yoga == "Siddhi"
  }

  predicate IsAuspiciousNakshatra(nakshatra: string)
  {
    nakshatra == "Rohini" || nakshatra == "Pushya"
  }

  /** `getAuspiciousPeriods` on the day's record (`None` when there is none). */
  method AuspiciousPeriods<M>(panchang: Option<Panchang<M>>) returns (auspiciousPeriods: seq<Period>)
    ensures panchang.None? ==> auspiciousPeriods == []
    ensures panchang.Some? ==> (SiddhaYogaPeriod in auspiciousPeriods <==> IsSiddhaYoga(panchang.value.yoga))
    ensures panchang.Some? ==>
              (AuspiciousNakshatraPeriod in auspiciousPeriods <==> IsAuspiciousNakshatra(panchang.value.nakshatra))
    ensures |auspiciousPeriods| <= 2
    ensures forall i :: 0 <= i < |auspiciousPeriods| ==>
              auspiciousPeriods[i] == SiddhaYogaPeriod || auspiciousPeriods[i] == AuspiciousNakshatraPeriod
    ensures |auspiciousPeriods| == 2 ==>
              auspiciousPeriods == [SiddhaYogaPeriod, AuspiciousNakshatraPeriod]
  {
    if panchang.None? {
      return [];
    }
    auspiciousPeriods := [];
    if IsSiddhaYoga(panchang.value.yoga) {
      auspiciousPeriods := auspiciousPeriods + [SiddhaYogaPeriod];
    }
    if IsAuspiciousNakshatra(panchang.value.nakshatra) {
      auspiciousPeriods := auspiciousPeriods + [AuspiciousNakshatraPeriod];
    }
  }

  /** `getFestivalMuhurats`: the day's muhurats when it has at least one festival, else []. */
  function FestivalMuhurats<M>(panchang: Option<Panchang<M>>): (r: seq<M>)
    ensures panchang.Some? && panchang.value.festivals != [] ==> r == panchang.value.muhurats
    ensures panchang.None? || panchang.value.festivals == [] ==> r == []
  {
    if panchang.Some? && |panchang.value.festivals| > 0 then panchang.value.muhurats else []
  }

  /** A day whose festival text is blank has no festival muhurats, whatever its
      muhurats column holds. */
  lemma BlankFestivalsHaveNoMuhurats<M>(row: PanchangRow<M>, parseJson: string -> Option<seq<M>>)
    requires row.festivals.FestivalsText?
    requires forall i :: 0 <= i < |row.festivals.text| ==> IsSpace(row.festivals.text[i]) || row.festivals.text[i] == ','
    ensures FestivalMuhurats(NormalizePanchang(row, parseJson)) == []
  {
    BlankFestivalText(row.festivals.text);
  }

  // ---------------------------------------------------------------- collection loops

  /** The records found on days `first .. first + count - 1`, in day order. */
  function Collected<P>(fetch: int -> Option<P>, first: int, count: nat): (r: seq<P>)
    ensures |r| <= count
  {
    if count == 0 then []
    else
      var earlier := Collected(fetch, first, count - 1);
      match fetch(first + count - 1)
      case Some(p) => earlier + [p]
      case None => earlier
  }

  /** The days among `first .. first + count - 1` that have a record. */
  function DaysWithRecord<P>(fetch: int -> Option<P>, first: int, count: nat): seq<int>
  {
    if count == 0 then []
    else
      var earlier := DaysWithRecord(fetch, first, count - 1);
      if fetch(first + count - 1).Some? then earlier + [first + count - 1] else earlier
  }

  /** The collected records are exactly those of the days that have one, each day
      once and in increasing order. */
  lemma {:induction false} CollectedInDayOrder<P>(fetch: int -> Option<P>, first: int, count: nat)
    ensures var days := DaysWithRecord(fetch, first, count);
            var r := Collected(fetch, first, count);
            |days| == |r| &&
            (forall k :: 0 <= k < |days| ==> first <= days[k] < first + count && fetch(days[k]) == Some(r[k])) &&
            (forall k, l :: 0 <= k < l < |days| ==> days[k] < days[l]) &&
            (forall d :: first <= d < first + count && fetch(d).Some? ==> d in days)
  {
    if count > 0 {
      CollectedInDayOrder(fetch, first, count - 1);
    }
  }

  const DaysInWeek := 7

  /** `getWeeklyPanchang`: days 0..6 after the start date, keeping those with a record. */
  method WeeklyPanchang<M>(fetch: int -> Option<Panchang<M>>) returns (weekData: seq<Panchang<M>>)
    ensures weekData == Collected(fetch, 0, DaysInWeek)
    ensures |weekData| <= DaysInWeek
  {
    weekData := [];
    var i := 0;
    while i < DaysInWeek
      invariant 0 <= i <= DaysInWeek
      invariant weekData == Collected(fetch, 0, i)
    {
      var dayData := fetch(i);
      if dayData.Some? {
        weekData := weekData + [dayData.value];
      }
      i := i + 1;
    }
  }

  /** `getMonthlyPanchang`: days 1..daysInMonth of the month, keeping those with a record. */
  method MonthlyPanchang<M>(fetch: int -> Option<Panchang<M>>, daysInMonth: int) returns (monthData: seq<Panchang<M>>)
    ensures monthData == Collected(fetch, 1, if daysInMonth > 0 then daysInMonth else 0)
    ensures |monthData| <= if daysInMonth > 0 then daysInMonth else 0
  {
    monthData := [];
    var day := 1;
    while day <= daysInMonth
      invariant 1 <= day && (day <= daysInMonth + 1 || daysInMonth < 1)
      invariant daysInMonth < 1 ==> day == 1
      invariant monthData == Collected(fetch, 1, day - 1)
    {
      var dayData := fetch(day);
      if dayData.Some? {
        monthData := monthData + [dayData.value];
      }
      day := day + 1;
    }
  }
}
