/** The Javanese <-> Gregorian facade: it validates the argument, asks the
    Direct conversion, and when that throws it writes a warning and falls
    back to the legacy reference lookup. */
module Jm {
  import opened Values
  import opened Pelok

  /** konversiTahunMasehiKeTahunJawa. A non-integer throws before anything
      else; the Direct inverse answers when it can; otherwise the warning is
      written and the Gregorian reference entry's constant is subtracted.
      Every integer gets a year back: the "outside supported range" error
      is never raised, because the lookup never comes back empty. */
  function KonversiTahunMasehiKeTahunJawa(v: JsValue): (r: Logged<int>)
    ensures r.result.Ok? <==> v.Integer?
    ensures !v.Integer? ==> r == Logged(Err(InvalidYear(Gregorian)), false)
  {
    match v
    case NonInteger => Logged(Err(InvalidYear(Gregorian)), false)
    case Integer(gregorianYear) =>
      match MasehiJawaDirect(v)
      case Ok(jawaYear) => Logged(Ok(jawaYear), false)
      case Err(_) =>
        match CariTahunReferensiMasehi(gregorianYear)
        case None => Logged(Err(OutsideSupportedRange(Gregorian, gregorianYear)), true)
        case Some(entry) => Logged(Ok(gregorianYear - entry.konstan), true)
  }

  /** konversiTahunJawaKeTahunMasehi, with the same shape: validation, the
      Direct forward conversion, and the Javanese lookup as fallback. */
  function KonversiTahunJawaKeTahunMasehi(v: JsValue): (r: Logged<int>)
    ensures r.result.Ok? <==> v.Integer?
    ensures !v.Integer? ==> r == Logged(Err(InvalidYear(Javanese)), false)
  {
    match v
    case NonInteger => Logged(Err(InvalidYear(Javanese)), false)
    case Integer(jawaYear) =>
      match KonversiJawaMasehiDirect(v)
      case Ok(gregorianYear) => Logged(Ok(gregorianYear), false)
      case Err(_) =>
        match CariTahunReferensiJawa(jawaYear)
        case None => Logged(Err(OutsideSupportedRange(Javanese, jawaYear)), true)
        case Some(entry) => Logged(Ok(jawaYear + entry.konstan), true)
  }

  /** The forward Direct conversion never throws on an integer, so the
      Javanese-to-Gregorian fallback is never taken: no warning, and the
      answer is the forward map, strictly later than the Javanese year. */
  lemma JawaKeMasehiIsDirect(jawaYear: int)
    ensures var r := KonversiTahunJawaKeTahunMasehi(Integer(jawaYear));
      && r == Logged(Ok(JawaMasehi(jawaYear)), false)
      && r.result.value > jawaYear
  {
  }

  /** From -32367 on, the Gregorian-to-Javanese facade answers with the
      Direct inverse, without a warning, and the year it gives converts
      forward to the Gregorian year it was asked about. */
  lemma MasehiKeJawaIsDirect(gregorianYear: int)
    requires gregorianYear >= BASE_GREGORIAN - CYCLE_LENGTH * MAX_ERROR
    ensures var r := KonversiTahunMasehiKeTahunJawa(Integer(gregorianYear));
      && r == Logged(MasehiJawaDirect(Integer(gregorianYear)), false)
      && r.result.Ok?
      && JawaMasehi(r.result.value) == gregorianYear
  {
    InverseThenForward(gregorianYear);
  }

  /** Below -32367 the Direct inverse throws, the warning is written, and
      the answer comes from the Gregorian reference entry: 78 plus the whole
      34-year cycles back from 1633 are subtracted. */
  lemma MasehiKeJawaFallback(gregorianYear: int)
    requires gregorianYear < BASE_GREGORIAN - CYCLE_LENGTH * MAX_ERROR
    ensures var r := KonversiTahunMasehiKeTahunJawa(Integer(gregorianYear));
      && r.warned
      && r.result == Ok(gregorianYear - INITIAL_DIFFERENCE - (BASE_GREGORIAN - gregorianYear) / CYCLE_LENGTH)
  {
    MasehiJawaAborts(gregorianYear);
  }

  /** The facade warns exactly for the integers below -32367. */
  lemma MasehiKeJawaWarnsExactly(v: JsValue)
    ensures KonversiTahunMasehiKeTahunJawa(v).warned
      <==> v.Integer? && v.n < BASE_GREGORIAN - CYCLE_LENGTH * MAX_ERROR
  {
    if v.Integer? {
      if v.n < BASE_GREGORIAN - CYCLE_LENGTH * MAX_ERROR {
        MasehiKeJawaFallback(v.n);
      } else {
        MasehiKeJawaIsDirect(v.n);
      }
    }
  }

  /** Gregorian to Javanese and back gives the Gregorian year exactly, for
      every year the Direct inverse handles. */
  lemma MasehiJawaMasehiRoundTrip(gregorianYear: int)
    requires gregorianYear >= BASE_GREGORIAN - CYCLE_LENGTH * MAX_ERROR
    ensures var j := KonversiTahunMasehiKeTahunJawa(Integer(gregorianYear));
      && j.result.Ok?
      && KonversiTahunJawaKeTahunMasehi(Integer(j.result.value)).result == Ok(gregorianYear)
  {
    var j := KonversiTahunMasehiKeTahunJawa(Integer(gregorianYear));
    MasehiKeJawaIsDirect(gregorianYear);
    JawaKeMasehiIsDirect(j.result.value);
  }

  /** Javanese to Gregorian and back, for every Javanese year: the forward
      call never warns; the way back warns exactly when the Gregorian year
      is below -32367, and otherwise lands within one year of the start. */
  lemma JawaMasehiJawaRoundTrip(jawaYear: int)
    ensures var g := KonversiTahunJawaKeTahunMasehi(Integer(jawaYear));
      var j := KonversiTahunMasehiKeTahunJawa(Integer(g.result.value));
      && !g.warned && j.result.Ok?
      && (j.warned <==> g.result.value < BASE_GREGORIAN - CYCLE_LENGTH * MAX_ERROR)
      && (!j.warned ==> Abs(j.result.value - jawaYear) <= 1)
  {
    JawaKeMasehiIsDirect(jawaYear);
    var g := JawaMasehi(jawaYear);
    MasehiKeJawaWarnsExactly(Integer(g));
    if g >= BASE_GREGORIAN - CYCLE_LENGTH * MAX_ERROR {
      MasehiKeJawaIsDirect(g);
      RoundTripWithinOne(jawaYear);
    }
  }

  /** From 1555 on the round trip goes without any warning. */
  lemma JawaMasehiJawaRoundTripAfterBase(jawaYear: int)
    requires jawaYear >= BASE_JAWA
    ensures var g := KonversiTahunJawaKeTahunMasehi(Integer(jawaYear));
      var j := KonversiTahunMasehiKeTahunJawa(Integer(g.result.value));
      && !g.warned && !j.warned && j.result.Ok?
      && Abs(j.result.value - jawaYear) <= 1
  {
    JawaMasehiMonotone(BASE_JAWA, jawaYear);
    JawaMasehiJawaRoundTrip(jawaYear);
  }

  /** When a Gregorian year from -32367 on has exactly one year around j
      that converts forward to it, the facade returns j without a warning. */
  lemma MasehiKeJawaUniquePreimage(gregorianYear: int, jawaYear: int)
    requires gregorianYear >= BASE_GREGORIAN - CYCLE_LENGTH * MAX_ERROR
    requires JawaMasehi(jawaYear) == gregorianYear
    requires JawaMasehi(jawaYear - 1) != gregorianYear && JawaMasehi(jawaYear + 1) != gregorianYear
    ensures KonversiTahunMasehiKeTahunJawa(Integer(gregorianYear)) == Logged(Ok(jawaYear), false)
  {
    MasehiKeJawaIsDirect(gregorianYear);
    JawaMasehiAlmostInjective(jawaYear, MasehiJawa(gregorianYear).year);
  }

  /** The facade against recorded year pairs (1 Suro 1946 = 2012 CE,
      1 Suro 1955 = 2021 CE, 1 Suro 1959 = 2025 CE): from 1946 AJ on the
      forward map runs one year ahead of them, in both directions, while
      1900 = 1968 and 1933 = 2000 agree. */
  lemma FacadeAgainstRecordedYears()
    ensures KonversiTahunJawaKeTahunMasehi(Integer(1900)) == Logged(Ok(1968), false)
    ensures KonversiTahunJawaKeTahunMasehi(Integer(1933)) == Logged(Ok(2000), false)
    ensures KonversiTahunJawaKeTahunMasehi(Integer(1946)) == Logged(Ok(2013), false)
    ensures KonversiTahunJawaKeTahunMasehi(Integer(1955)) == Logged(Ok(2022), false)
    ensures KonversiTahunJawaKeTahunMasehi(Integer(1959)) == Logged(Ok(2026), false)
    ensures KonversiTahunMasehiKeTahunJawa(Integer(2012)) == Logged(Ok(1945), false)
    ensures KonversiTahunMasehiKeTahunJawa(Integer(2021)) == Logged(Ok(1954), false)
    ensures KonversiTahunMasehiKeTahunJawa(Integer(2025)) == Logged(Ok(1958), false)
  {
    JawaKeMasehiIsDirect(1900);
    JawaKeMasehiIsDirect(1933);
    JawaKeMasehiIsDirect(1946);
    JawaKeMasehiIsDirect(1955);
    JawaKeMasehiIsDirect(1959);
    MasehiKeJawaUniquePreimage(2012, 1945);
    MasehiKeJawaUniquePreimage(2021, 1954);
    MasehiKeJawaUniquePreimage(2025, 1958);
  }

  /** The doc comment of the Gregorian-to-Javanese facade describes the
      answer as g - max(78 - floor((g - 1633) / 34), 1). The code runs the
      Direct inverse instead, and the two differ: for 1700 the formula gives
      1623, which converts forward to 1699, while the facade gives 1624,
      which converts forward to 1700. */
  lemma MasehiKeJawaDiffersFromDocumentedFormula()
    ensures 1700 - Max(INITIAL_DIFFERENCE - (1700 - BASE_GREGORIAN) / CYCLE_LENGTH, MIN_DIFFERENCE) == 1623
    ensures JawaMasehi(1623) == 1699
    ensures KonversiTahunMasehiKeTahunJawa(Integer(1700)) == Logged(Ok(1624), false)
    ensures JawaMasehi(1624) == 1700
  {
    MasehiKeJawaIsDirect(1700);
    assert JawaMasehi(1624) == 1700;
    JawaMasehiAlmostInjective(1624, MasehiJawa(1700).year);
  }

  /** Sample conversions through the facade. */
  lemma FacadeSamples()
    ensures KonversiTahunJawaKeTahunMasehi(Integer(1955)) == Logged(Ok(2022), false)
    ensures KonversiTahunMasehiKeTahunJawa(Integer(2022)) == Logged(Ok(1955), false)
    ensures KonversiTahunMasehiKeTahunJawa(Integer(1633)) == Logged(Ok(1555), false)
    ensures KonversiTahunMasehiKeTahunJawa(Integer(-100000)) == Logged(Ok(-103067), true)
  {
    MasehiJawaSamples();
    MasehiKeJawaFallback(-100000);
  }
}
