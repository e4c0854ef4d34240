/** The eco-impact card (`EcoImpact`): the grams of CO2 absorbed this month,
    read from the user's `eco_impact` row for the current month, which is
    created with a default value when absent. */
module EcoImpact {
  import opened Common
  import opened Query
  import opened Store

  /** Both the card's initial figure and the value a new month's row gets. */
  const DefaultGrams: real := 14.53

  /** A UTC instant, broken into the fields `toISOString` prints. */
  datatype Instant = Instant(year: nat, month: nat, day: nat, hour: nat, minute: nat, second: nat, millis: nat)

  /** An instant of years 0 to 9999, which `toISOString` prints with a
      four-digit year. */
  predicate Calendar(t: Instant) {
    t.year < 10000 && 1 <= t.month <= 12 && 1 <= t.day <= 31 &&
    t.hour < 24 && t.minute < 60 && t.second < 60 && t.millis < 1000
  }

  lemma Pow10Values()
    ensures Pow10(2) == 100 && Pow10(3) == 1000 && Pow10(4) == 10000
  {
    Pow10Step(0);
    Pow10Step(1);
    Pow10Step(2);
    Pow10Step(3);
  }

  /** A number below 10^w padded to width w has exactly w digits. */
  lemma PadWidth(n: nat, w: nat)
    requires 1 <= w && n < Pow10(w)
    ensures |PadDecimal(n, w)| == w
  {
    DecimalLength(n, w);
  }

  /** The `YYYY-MM` part of `toISOString()`. */
  function YearMonth(t: Instant): (s: string)
    requires Calendar(t)
    ensures |s| == 7
  {
    Pow10Values();
    PadWidth(t.year, 4);
    PadWidth(t.month, 2);
    PadDecimal(t.year, 4) + "-" + PadDecimal(t.month, 2)
  }

  /** The `-DDTHH:mm:ss.sssZ` rest of `toISOString()`. */
  function DayAndTime(t: Instant): (s: string)
    requires Calendar(t)
    ensures |s| == 17
  {
    Pow10Values();
    PadWidth(t.day, 2);
    PadWidth(t.hour, 2);
    PadWidth(t.minute, 2);
    PadWidth(t.second, 2);
    PadWidth(t.millis, 3);
    "-" + PadDecimal(t.day, 2) + "T" + PadDecimal(t.hour, 2) + ":" + PadDecimal(t.minute, 2) + ":" +
    PadDecimal(t.second, 2) + "." + PadDecimal(t.millis, 3) + "Z"
  }

  /** `toISOString()`: `YYYY-MM-DDTHH:mm:ss.sssZ`. */
  function IsoString(t: Instant): (s: string)
    requires Calendar(t)
    ensures |s| == 24
  {
    YearMonth(t) + DayAndTime(t)
  }

  /** `.slice(0, 7)` of a timestamp: at most its first seven characters. */
  function MonthKey(iso: string): (k: string)
    ensures |k| == if |iso| < 7 then |iso| else 7
    ensures k == iso[..|k|]
  {
    if |iso| < 7 then iso else iso[..7]
  }

  /** The key of a calendar instant is its `YYYY-MM`. */
  lemma MonthKeyOfIso(t: Instant)
    requires Calendar(t)
    ensures MonthKey(IsoString(t)) == PadDecimal(t.year, 4) + "-" + PadDecimal(t.month, 2)
  {
    assert IsoString(t)[..7] == YearMonth(t);
  }

  /** Two instants share a key exactly when they fall in the same month of
      the same year, so the key names one row per user and month. */
  lemma SameKeyIffSameMonth(t1: Instant, t2: Instant)
    requires Calendar(t1) && Calendar(t2)
    ensures MonthKey(IsoString(t1)) == MonthKey(IsoString(t2)) <==> t1.year == t2.year && t1.month == t2.month
  {
    MonthKeyOfIso(t1);
    MonthKeyOfIso(t2);
    Pow10Values();
    PadWidth(t1.year, 4);
    PadWidth(t1.month, 2);
    PadWidth(t2.year, 4);
    PadWidth(t2.month, 2);
    var k1 := MonthKey(IsoString(t1));
    var k2 := MonthKey(IsoString(t2));
    if k1 == k2 {
      assert k1[..4] == PadDecimal(t1.year, 4) && k2[..4] == PadDecimal(t2.year, 4);
      assert k1[5..] == PadDecimal(t1.month, 2) && k2[5..] == PadDecimal(t2.month, 2);
      PadDecimalRoundTrip(t1.year, 4);
      PadDecimalRoundTrip(t2.year, 4);
      PadDecimalRoundTrip(t1.month, 2);
      PadDecimalRoundTrip(t2.month, 2);
    }
  }

  /** The row `.single()` finds, if the query itself succeeds. */
  function Found(rows: seq<EcoRecord>, uid: string, key: string, queryOk: bool): (r: Option<EcoRecord>)
    ensures r.Some? <==> queryOk && |EcoMatches(rows, uid, key)| == 1
    ensures r.Some? ==> r.value in rows && r.value.userId == uid && r.value.monthYear == key
  {
    if queryOk then EcoLookup(rows, uid, key) else None
  }

  /** Appending a row adds it to the matches exactly when it matches. */
  lemma MatchesAfterAppend(rows: seq<EcoRecord>, e: EcoRecord, uid: string, key: string)
    ensures EcoMatches(rows + [e], uid, key) ==
      EcoMatches(rows, uid, key) + (if e.userId == uid && e.monthYear == key then [e] else [])
  {
    var p := (r: EcoRecord) => r.userId == uid && r.monthYear == key;
    FilterAppend(rows, [e], p);
    assert Filter([e], p) == (if p(e) then [e] else []) + Filter([e][1..], p);
  }

  /** Get-or-create settles: once the first visit of a month has inserted its
      row, the next visit finds that row and inserts nothing. */
  lemma CreateThenFind(rows: seq<EcoRecord>, uid: string, key: string, id: nat)
    requires |EcoMatches(rows, uid, key)| == 0
    ensures EcoLookup(rows + [EcoRecord(id, uid, key, Some(DefaultGrams))], uid, key) ==
      Some(EcoRecord(id, uid, key, Some(DefaultGrams)))
  {
    MatchesAfterAppend(rows, EcoRecord(id, uid, key, Some(DefaultGrams)), uid, key);
  }

  /** With two or more rows for the month, `.single()` yields no data, so
      every visit inserts yet another row and the lookup never succeeds again. */
  lemma DuplicatesNeverSettle(rows: seq<EcoRecord>, uid: string, key: string, id: nat)
    requires |EcoMatches(rows, uid, key)| >= 2
    ensures EcoLookup(rows, uid, key).None?
    ensures |EcoMatches(rows + [EcoRecord(id, uid, key, Some(DefaultGrams))], uid, key)| ==
      |EcoMatches(rows, uid, key)| + 1
  {
    MatchesAfterAppend(rows, EcoRecord(id, uid, key, Some(DefaultGrams)), uid, key);
  }

  class EcoImpactCard {
    /** The `userId` prop. */
    const userId: string
    var currentImpact: real

    constructor (uid: string)
      ensures userId == uid && currentImpact == DefaultGrams
    {
      userId := uid;
      currentImpact := DefaultGrams;
    }

    /** `fetchEcoImpact`, with the clock's ISO string as `iso` and the two
        requests' outcomes as `queryOk` and `insertOk`. A found row with a null
        amount makes `.toString()` throw, which ends the call with nothing
        changed; a failed query reads as no data. */
    method FetchEcoImpact(db: Backend, iso: string, queryOk: bool, insertOk: bool)
      requires db.Valid()
      modifies this, db
      ensures db.Valid()
      ensures var found := Found(old(db.eco), userId, MonthKey(iso), queryOk);
        (found.Some? && found.value.co2Grams.Some? ==>
          currentImpact == found.value.co2Grams.value && db.eco == old(db.eco) && db.nextId == old(db.nextId)) &&
        (found.Some? && found.value.co2Grams.None? ==>
          currentImpact == old(currentImpact) && db.eco == old(db.eco) && db.nextId == old(db.nextId)) &&
        (found.None? ==>
          currentImpact == old(currentImpact) &&
          db.eco == (if insertOk then old(db.eco) + [EcoRecord(old(db.nextId), userId, MonthKey(iso), Some(DefaultGrams))]
                     else old(db.eco)) &&
          db.nextId == old(db.nextId) + (if insertOk then 1 else 0))
      ensures db.garments == old(db.garments) && db.goals == old(db.goals) && db.metrics == old(db.metrics)
    {
      var currentMonth := MonthKey(iso);
      var data := Found(db.eco, userId, currentMonth, queryOk);
      if data.Some? {
        if data.value.co2Grams.Some? {
          currentImpact := data.value.co2Grams.value;
        }
      } else {
        var _ := db.InsertEco(userId, currentMonth, DefaultGrams, insertOk);
      }
    }
  }
}
