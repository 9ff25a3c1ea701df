/** The conversion engine of `src/pelok.js`: the calendar constants, the
    Direct Javanese-to-Gregorian formula, its iterative inverse, and the
    legacy 78-band reference table with its analytic lookup. */
module Pelok {
  import opened Values

  // JAVANESE_CALENDAR_CONSTANTS
  const BASE_JAWA: int := 1555
  const BASE_GREGORIAN: int := 1633
  const BASE_HIJRI: int := 1043
  const INITIAL_DIFFERENCE: int := 78
  const CYCLE_LENGTH: int := 34
  const DIFFERENCE_DECAY: int := 1
  const MIN_DIFFERENCE: int := 1
  const HIJRI_OFFSET: int := 512

  /** Rounds the inverse runs before it returns its last estimate. */
  const MAX_ITERATIONS: nat := 10
  /** An error beyond this many years makes the inverse give up. */
  const MAX_ERROR: int := 1000
  /** Entries in a legacy reference table. */
  const TABLE_SIZE: nat := 78

  /** The constants tie the three bases together. */
  lemma ConstantsAgree()
    ensures BASE_JAWA - BASE_HIJRI == HIJRI_OFFSET
    ensures BASE_GREGORIAN - BASE_JAWA == INITIAL_DIFFERENCE
  {
  }

  function Max(a: int, b: int): int
  {
    if a >= b then a else b
  }

  function Abs(x: int): nat
  {
    if x < 0 then -x else x
  }

  /** Math.ceil(n / 34): the number of started cycles in n years. */
  function CeilCycles(n: int): int
  {
    (n + CYCLE_LENGTH - 1) / CYCLE_LENGTH
  }

  // ---------------------------------------------------------------------
  // Forward Direct conversion (konversiJawaMasehiDirect)
  // ---------------------------------------------------------------------

  /** The year difference before the minimum is applied: it shrinks by one
      for every 34 years after the base, counted with floor, and grows by
      one for every started 34 years before it, counted with ceiling. */
  function RawDifference(jawaYear: int): int
  {
    var yearsFromBase := jawaYear - BASE_JAWA;
    if yearsFromBase >= 0 then
      INITIAL_DIFFERENCE - (yearsFromBase / CYCLE_LENGTH) * DIFFERENCE_DECAY
    else
      INITIAL_DIFFERENCE + CeilCycles(-yearsFromBase) * DIFFERENCE_DECAY
  }

  /** The difference that is added to a Javanese year. */
  function Difference(jawaYear: int): (d: int)
    ensures d >= MIN_DIFFERENCE
  {
    Max(RawDifference(jawaYear), MIN_DIFFERENCE)
  }

  /** The Gregorian year of a Javanese year, for an integer argument. */
  function JawaMasehi(jawaYear: int): (gregorianYear: int)
    ensures gregorianYear - jawaYear >= MIN_DIFFERENCE
  {
    if jawaYear == BASE_JAWA then BASE_GREGORIAN
    else jawaYear + Difference(jawaYear)
  }

  /** konversiJawaMasehiDirect: validation, then the formula. */
  function KonversiJawaMasehiDirect(v: JsValue): (r: Result<int>)
    ensures !v.Integer? <==> r == Err(InvalidYear(Javanese))
    ensures v.Integer? ==> r.Ok? && r.value > v.n
  {
    match v
    case NonInteger => Err(InvalidYear(Javanese))
    case Integer(jawaYear) => Ok(JawaMasehi(jawaYear))
  }

  /** Cycles passed since the base year, counted with floor on both sides. */
  function CyclesFromBase(jawaYear: int): int
  {
    (jawaYear - BASE_JAWA) / CYCLE_LENGTH
  }

  /** The ceiling branch before the base and the floor branch after it are
      one formula: the difference is 78 minus the floored number of cycles
      from the base, never below 1; the base-year shortcut agrees with it. */
  lemma DifferenceClosedForm(jawaYear: int)
    ensures Difference(jawaYear) == Max(INITIAL_DIFFERENCE - CyclesFromBase(jawaYear), MIN_DIFFERENCE)
    ensures JawaMasehi(jawaYear) == jawaYear + Difference(jawaYear)
  {
    var yearsFromBase := jawaYear - BASE_JAWA;
    if yearsFromBase < 0 {
      var n := -yearsFromBase;
      var q := CeilCycles(n);
      assert 34 * (q - 1) < n <= 34 * q;
      assert yearsFromBase == 34 * (-q) + (34 * q - n);
      assert 0 <= 34 * q - n < 34;
      assert yearsFromBase / 34 == -q;
    }
  }

  /** The forward map in one closed formula, with no base-year shortcut and
      no separate branch before the base. */
  function JawaMasehiFormula(jawaYear: int): int
  {
    jawaYear + Max(INITIAL_DIFFERENCE - CyclesFromBase(jawaYear), MIN_DIFFERENCE)
  }

  /** The forward map as written (shortcut, floor branch, ceiling branch,
      minimum) agrees with the closed formula on every year. */
  lemma JawaMasehiMatchesFormula(jawaYear: int)
    ensures JawaMasehi(jawaYear) == JawaMasehiFormula(jawaYear)
  {
    DifferenceClosedForm(jawaYear);
  }

  /** Within band k after the base (years 1555+34k .. 1555+34k+33) the
      difference is the constant max(78 - k, 1). */
  lemma DifferenceInBand(k: nat, offset: int)
    requires 0 <= offset < CYCLE_LENGTH
    ensures Difference(BASE_JAWA + CYCLE_LENGTH * k + offset) == Max(INITIAL_DIFFERENCE - k, MIN_DIFFERENCE)
  {
    var y := BASE_JAWA + CYCLE_LENGTH * k + offset;
    assert (y - BASE_JAWA) / CYCLE_LENGTH == k;
  }

  /** At each band boundary after the base the difference drops by exactly
      one, until it reaches the minimum of 1 at band 77. */
  lemma DifferenceDropsAtBoundary(k: nat)
    requires 1 <= k <= 77
    ensures Difference(BASE_JAWA + CYCLE_LENGTH * k) == Difference(BASE_JAWA + CYCLE_LENGTH * k - 1) - 1
    ensures Difference(BASE_JAWA + CYCLE_LENGTH * k) >= MIN_DIFFERENCE
  {
    DifferenceInBand(k, 0);
    DifferenceInBand(k - 1, CYCLE_LENGTH - 1);
  }

  /** The difference never grows, and over a span of delta years it drops
      by at most ceil(delta / 34). */
  lemma DifferenceDrop(a: int, b: int)
    requires a <= b
    ensures 0 <= Difference(a) - Difference(b) <= (b - a + CYCLE_LENGTH - 1) / CYCLE_LENGTH
  {
    DifferenceClosedForm(a);
    DifferenceClosedForm(b);
    var qa, ra := (a - BASE_JAWA) / 34, (a - BASE_JAWA) % 34;
    var delta := b - a;
    assert b - BASE_JAWA == 34 * qa + (ra + delta);
    assert (b - BASE_JAWA) / 34 == qa + (ra + delta) / 34;
    assert (ra + delta) / 34 <= (delta + 33) / 34;
  }

  /** The forward map climbs in steps of 0 or 1. */
  lemma JawaMasehiStep(jawaYear: int)
    ensures 0 <= JawaMasehi(jawaYear + 1) - JawaMasehi(jawaYear) <= 1
  {
    DifferenceClosedForm(jawaYear);
    DifferenceClosedForm(jawaYear + 1);
    DifferenceDrop(jawaYear, jawaYear + 1);
  }

  /** The forward map is monotone. */
  lemma {:induction false} JawaMasehiMonotone(a: int, b: int)
    requires a <= b
    ensures JawaMasehi(a) <= JawaMasehi(b)
    decreases b - a
  {
    if a < b {
      JawaMasehiMonotone(a, b - 1);
      JawaMasehiStep(b - 1);
    }
  }

  /** Two steps of the forward map never both stay flat, so at most two
      Javanese years share a Gregorian year, and they are adjacent. */
  lemma JawaMasehiAlmostInjective(a: int, b: int)
    requires JawaMasehi(a) == JawaMasehi(b)
    ensures Abs(a - b) <= 1
  {
    if a + 2 <= b {
      DifferenceClosedForm(a);
      DifferenceClosedForm(a + 2);
      DifferenceDrop(a, a + 2);
      JawaMasehiMonotone(a + 2, b);
    } else if b + 2 <= a {
      DifferenceClosedForm(b);
      DifferenceClosedForm(b + 2);
      DifferenceDrop(b, b + 2);
      JawaMasehiMonotone(b + 2, a);
    }
  }

  /** Sample values of the forward map. */
  lemma JawaMasehiSamples()
    ensures JawaMasehi(1555) == 1633
    ensures JawaMasehi(1955) == 2022
    ensures JawaMasehi(1000) == 1095
    ensures JawaMasehi(1933) == 2000
  {
  }

  // ---------------------------------------------------------------------
  // Inverse Direct conversion (konversiMasehiJawaDirect)
  // ---------------------------------------------------------------------

  /** How the inverse's loop ends: a Javanese year whose forward image is
      the target, after some rounds; an error too large to go on; or the
      last estimate once the rounds are spent. */
  datatype SearchExit =
    | Converged(year: int, rounds: nat)
    | Aborted(error: int)
    | Exhausted(year: int)

  /** The inverse's loop from round `iterations` on, with the estimate
      `estimatedJawa` for the Gregorian year `gregorianYear`. Each round
      converts the estimate forward; the forward step is written with the
      closed formula, which JawaMasehiMatchesFormula proves equal to the
      forward map as written. */
  function MasehiJawaSearch(gregorianYear: int, estimatedJawa: int, iterations: nat): SearchExit
    requires iterations <= MAX_ITERATIONS
    decreases MAX_ITERATIONS - iterations, 1
  {
    if iterations == MAX_ITERATIONS then Exhausted(estimatedJawa)
    else SearchDecide(gregorianYear, estimatedJawa, JawaMasehiFormula(estimatedJawa) - gregorianYear, iterations)
  }

  /** One round's decision once the error of the estimate is known: stop
      on a zero error, give up on an error beyond 1000 years, otherwise
      move the estimate back by the error and go to the next round. */
  function SearchDecide(gregorianYear: int, estimatedJawa: int, error: int, iterations: nat): SearchExit
    requires iterations < MAX_ITERATIONS
    decreases MAX_ITERATIONS - iterations, 0
  {
    if error == 0 then Converged(estimatedJawa, iterations)
    else if Abs(error) > MAX_ERROR then Aborted(error)
    else MasehiJawaSearch(gregorianYear, estimatedJawa - error, iterations + 1)
  }

  /** The whole inverse on an integer: the base year directly, otherwise
      the loop seeded 78 years back. */
  function MasehiJawa(gregorianYear: int): SearchExit
  {
    if gregorianYear == BASE_GREGORIAN then Converged(BASE_JAWA, 0)
    else MasehiJawaSearch(gregorianYear, gregorianYear - INITIAL_DIFFERENCE, 0)
  }

  /** konversiMasehiJawaDirect as a value: validation, then the loop's exit
      as a returned year or a thrown error. */
  function MasehiJawaDirect(v: JsValue): Result<int>
  {
    match v
    case NonInteger => Err(InvalidYear(Gregorian))
    case Integer(g) =>
      match MasehiJawa(g)
      case Converged(j, _) => Ok(j)
      case Exhausted(j) => Ok(j)
      case Aborted(_) => Err(ConversionFailed(g))
  }

  /** konversiMasehiJawaDirect: at most 10 rounds of "convert the estimate
      forward and move it back by the error". */
  method KonversiMasehiJawaDirect(v: JsValue) returns (r: Result<int>)
    ensures r == MasehiJawaDirect(v)
  {
    if !v.Integer? {
      return Err(InvalidYear(Gregorian));
    }
    var gregorianYear := v.n;
    if gregorianYear == BASE_GREGORIAN {
      return Ok(BASE_JAWA);
    }
    var estimatedJawa := gregorianYear - INITIAL_DIFFERENCE;
    var iterations := 0;
    ghost var exit := MasehiJawaSearch(gregorianYear, estimatedJawa, iterations);
    while iterations < MAX_ITERATIONS
      invariant iterations <= MAX_ITERATIONS
      invariant MasehiJawaSearch(gregorianYear, estimatedJawa, iterations) == exit
    {
      var calculatedGregorian := JawaMasehi(estimatedJawa);
      var error := calculatedGregorian - gregorianYear;
      JawaMasehiMatchesFormula(estimatedJawa);
      ghost var nextJawa := estimatedJawa - error;
      SearchRound(gregorianYear, estimatedJawa, nextJawa, iterations);
      if error == 0 {
        MasehiJawaSeed(gregorianYear);
        return Ok(estimatedJawa);
      }
      estimatedJawa := estimatedJawa - error;
      iterations := iterations + 1;
      if Abs(error) > MAX_ERROR {
        MasehiJawaSeed(gregorianYear);
        return Err(ConversionFailed(gregorianYear));
      }
    }
    MasehiJawaSeed(gregorianYear);
    return Ok(estimatedJawa);
  }

  /** A converged exit found a year whose forward image is the target,
      within the ten rounds; an abort saw an error beyond 1000 years. */
  lemma {:induction false} MasehiJawaSearchExit(gregorianYear: int, estimatedJawa: int, iterations: nat)
    requires iterations <= MAX_ITERATIONS
    ensures var e := MasehiJawaSearch(gregorianYear, estimatedJawa, iterations);
      && (e.Converged? ==> JawaMasehiFormula(e.year) == gregorianYear && iterations <= e.rounds < MAX_ITERATIONS)
      && (e.Aborted? ==> Abs(e.error) > MAX_ERROR)
    decreases MAX_ITERATIONS - iterations
  {
    if iterations < MAX_ITERATIONS {
      var error := JawaMasehiFormula(estimatedJawa) - gregorianYear;
      if error != 0 && Abs(error) <= MAX_ERROR {
        MasehiJawaSearchExit(gregorianYear, estimatedJawa - error, iterations + 1);
      }
    }
  }

  /** The same for the whole inverse, base-year shortcut included. */
  lemma MasehiJawaExit(gregorianYear: int)
    ensures var e := MasehiJawa(gregorianYear);
      && (e.Converged? ==> JawaMasehi(e.year) == gregorianYear && e.rounds < MAX_ITERATIONS)
      && (e.Aborted? ==> Abs(e.error) > MAX_ERROR)
  {
    var e := MasehiJawa(gregorianYear);
    if gregorianYear != BASE_GREGORIAN {
      MasehiJawaSearchExit(gregorianYear, gregorianYear - INITIAL_DIFFERENCE, 0);
    }
    if e.Converged? {
      JawaMasehiMatchesFormula(e.year);
    }
  }

  /** One round of the loop, unfolded. */
  lemma SearchRound(gregorianYear: int, estimatedJawa: int, nextJawa: int, iterations: nat)
    requires iterations < MAX_ITERATIONS
    requires nextJawa == estimatedJawa - (JawaMasehiFormula(estimatedJawa) - gregorianYear)
    ensures var error := JawaMasehiFormula(estimatedJawa) - gregorianYear;
      MasehiJawaSearch(gregorianYear, estimatedJawa, iterations) ==
        if error == 0 then Converged(estimatedJawa, iterations)
        else if Abs(error) > MAX_ERROR then Aborted(error)
        else MasehiJawaSearch(gregorianYear, nextJawa, iterations + 1)
  {
  }

  /** One round moves the estimate by the error, and the next error is the
      change of the difference between the two estimates; it keeps the sign
      of the previous error and is at most ceil(|error| / 34) in size. */
  lemma NextError(gregorianYear: int, estimatedJawa: int, nextJawa: int)
    requires nextJawa == estimatedJawa - (JawaMasehiFormula(estimatedJawa) - gregorianYear)
    ensures var error := JawaMasehiFormula(estimatedJawa) - gregorianYear;
      var next := JawaMasehiFormula(nextJawa) - gregorianYear;
      && next == Difference(nextJawa) - Difference(estimatedJawa)
      && (error <= 0 ==> next <= 0 && -next <= (-error + CYCLE_LENGTH - 1) / CYCLE_LENGTH)
      && (error >= 0 ==> next >= 0 && next <= (error + CYCLE_LENGTH - 1) / CYCLE_LENGTH)
  {
    DifferenceClosedForm(estimatedJawa);
    DifferenceClosedForm(nextJawa);
    if nextJawa >= estimatedJawa {
      DifferenceDrop(estimatedJawa, nextJawa);
    } else {
      DifferenceDrop(nextJawa, estimatedJawa);
    }
  }

  /** Two errors of size one in a row are followed by an error of zero. */
  lemma NoThirdUnitError(gregorianYear: int, e0: int, e1: int, e2: int)
    requires e1 == e0 - (JawaMasehiFormula(e0) - gregorianYear)
    requires e2 == e1 - (JawaMasehiFormula(e1) - gregorianYear)
    requires Abs(JawaMasehiFormula(e0) - gregorianYear) == 1
    requires Abs(JawaMasehiFormula(e1) - gregorianYear) == 1
    ensures JawaMasehiFormula(e2) == gregorianYear
  {
    NextError(gregorianYear, e0, e1);
    NextError(gregorianYear, e1, e2);
    if e0 < e2 {
      DifferenceDrop(e0, e2);
    } else {
      DifferenceDrop(e2, e0);
    }
  }

  /** From an estimate whose error is at most one year, the loop converges
      within two more rounds. */
  lemma ConvergesFromUnitError(gregorianYear: int, estimatedJawa: int, iterations: nat)
    requires iterations <= MAX_ITERATIONS - 3
    requires Abs(JawaMasehiFormula(estimatedJawa) - gregorianYear) <= 1
    ensures var e := MasehiJawaSearch(gregorianYear, estimatedJawa, iterations);
      e.Converged? && e.rounds <= iterations + 2 && JawaMasehiFormula(e.year) == gregorianYear
  {
    var error := JawaMasehiFormula(estimatedJawa) - gregorianYear;
    var e1 := estimatedJawa - error;
    SearchRound(gregorianYear, estimatedJawa, e1, iterations);
    if error != 0 {
      NextError(gregorianYear, estimatedJawa, e1);
      var next := JawaMasehiFormula(e1) - gregorianYear;
      var e2 := e1 - next;
      SearchRound(gregorianYear, e1, e2, iterations + 1);
      if next != 0 {
        NoThirdUnitError(gregorianYear, estimatedJawa, e1, e2);
        SearchRound(gregorianYear, e2, e2 - (JawaMasehiFormula(e2) - gregorianYear), iterations + 2);
      }
    }
  }

  /** From an estimate whose error is at most 30 years, the loop converges
      within three more rounds. */
  lemma ConvergesFromSmallError(gregorianYear: int, estimatedJawa: int, iterations: nat)
    requires iterations <= MAX_ITERATIONS - 4
    requires Abs(JawaMasehiFormula(estimatedJawa) - gregorianYear) <= 30
    ensures var e := MasehiJawaSearch(gregorianYear, estimatedJawa, iterations);
      e.Converged? && e.rounds <= iterations + 3 && JawaMasehiFormula(e.year) == gregorianYear
  {
    var error := JawaMasehiFormula(estimatedJawa) - gregorianYear;
    var e1 := estimatedJawa - error;
    SearchRound(gregorianYear, estimatedJawa, e1, iterations);
    if error != 0 {
      NextError(gregorianYear, estimatedJawa, e1);
      ConvergesFromUnitError(gregorianYear, e1, iterations + 1);
    }
  }

  /** From an estimate whose error is at most 1000 years, the loop converges
      within four more rounds. */
  lemma ConvergesFromBoundedError(gregorianYear: int, estimatedJawa: int, iterations: nat)
    requires iterations <= MAX_ITERATIONS - 5
    requires Abs(JawaMasehiFormula(estimatedJawa) - gregorianYear) <= MAX_ERROR
    ensures var e := MasehiJawaSearch(gregorianYear, estimatedJawa, iterations);
      e.Converged? && e.rounds <= iterations + 4 && JawaMasehiFormula(e.year) == gregorianYear
  {
    var error := JawaMasehiFormula(estimatedJawa) - gregorianYear;
    var e1 := estimatedJawa - error;
    SearchRound(gregorianYear, estimatedJawa, e1, iterations);
    if error != 0 {
      NextError(gregorianYear, estimatedJawa, e1);
      ConvergesFromSmallError(gregorianYear, e1, iterations + 1);
    }
  }

  /** The whole inverse starts the loop from the seed 78 years back. */
  lemma MasehiJawaSeed(gregorianYear: int)
    requires gregorianYear != BASE_GREGORIAN
    ensures MasehiJawa(gregorianYear) == MasehiJawaSearch(gregorianYear, gregorianYear - INITIAL_DIFFERENCE, 0)
  {
  }

  /** The seed's error is the number of cycles between the Gregorian year
      and 1633, counted with floor and capped at 77 after the base, so it
      stays within 1000 years exactly from -32367 on. */
  lemma FirstError(gregorianYear: int)
    ensures var error := JawaMasehiFormula(gregorianYear - INITIAL_DIFFERENCE) - gregorianYear;
      Abs(error) <= MAX_ERROR <==> gregorianYear >= BASE_GREGORIAN - CYCLE_LENGTH * MAX_ERROR
  {
    var c := CyclesFromBase(gregorianYear - INITIAL_DIFFERENCE);
    if gregorianYear >= BASE_GREGORIAN - CYCLE_LENGTH * MAX_ERROR {
      assert c >= -MAX_ERROR;
    } else {
      assert c < -MAX_ERROR;
    }
  }

  /** The inverse converges for every Gregorian year from -32367 on, within
      four rounds, to a Javanese year that the forward map sends back to it;
      so the "return the last estimate" exit is never taken there. */
  lemma MasehiJawaConverges(gregorianYear: int)
    requires gregorianYear >= BASE_GREGORIAN - CYCLE_LENGTH * MAX_ERROR
    ensures var e := MasehiJawa(gregorianYear);
      e.Converged? && e.rounds <= 4 && JawaMasehiFormula(e.year) == gregorianYear
  {
    if gregorianYear != BASE_GREGORIAN {
      SeedConverges(gregorianYear);
      MasehiJawaSeed(gregorianYear);
    }
  }

  /** From the seed 78 years back the loop converges within four rounds,
      for every Gregorian year from -32367 on. */
  lemma SeedConverges(gregorianYear: int)
    requires gregorianYear >= BASE_GREGORIAN - CYCLE_LENGTH * MAX_ERROR
    ensures var e := MasehiJawaSearch(gregorianYear, gregorianYear - INITIAL_DIFFERENCE, 0);
      e.Converged? && e.rounds <= 4 && JawaMasehiFormula(e.year) == gregorianYear
  {
    FirstError(gregorianYear);
    ConvergesFromBoundedError(gregorianYear, gregorianYear - INITIAL_DIFFERENCE, 0);
  }

  /** Below -32367 the first error already exceeds 1000 years and the
      inverse throws. */
  lemma MasehiJawaAborts(gregorianYear: int)
    requires gregorianYear < BASE_GREGORIAN - CYCLE_LENGTH * MAX_ERROR
    ensures MasehiJawa(gregorianYear).Aborted?
  {
    FirstError(gregorianYear);
    MasehiJawaSeed(gregorianYear);
    var seed := gregorianYear - INITIAL_DIFFERENCE;
    SearchRound(gregorianYear, seed, seed - (JawaMasehiFormula(seed) - gregorianYear), 0);
  }

  /** Forward then inverse lands within one year of the start, for every
      Javanese year whose image the inverse handles. */
  lemma RoundTripWithinOne(jawaYear: int)
    requires JawaMasehi(jawaYear) >= BASE_GREGORIAN - CYCLE_LENGTH * MAX_ERROR
    ensures MasehiJawaDirect(Integer(JawaMasehi(jawaYear))).Ok?
    ensures Abs(MasehiJawaDirect(Integer(JawaMasehi(jawaYear))).value - jawaYear) <= 1
  {
    var g := JawaMasehi(jawaYear);
    MasehiJawaConverges(g);
    JawaMasehiMatchesFormula(MasehiJawa(g).year);
    JawaMasehiAlmostInjective(MasehiJawa(g).year, jawaYear);
  }

  /** Inverse then forward gives back the Gregorian year exactly. */
  lemma InverseThenForward(gregorianYear: int)
    requires gregorianYear >= BASE_GREGORIAN - CYCLE_LENGTH * MAX_ERROR
    ensures MasehiJawaDirect(Integer(gregorianYear)).Ok?
    ensures JawaMasehi(MasehiJawaDirect(Integer(gregorianYear)).value) == gregorianYear
  {
    MasehiJawaConverges(gregorianYear);
    JawaMasehiMatchesFormula(MasehiJawa(gregorianYear).year);
  }

  /** Every Javanese year from 1555 on maps into the range the inverse
      handles, so the round trip is within one year for all of them. */
  lemma RoundTripAfterBase(jawaYear: int)
    requires jawaYear >= BASE_JAWA
    ensures Abs(MasehiJawaDirect(Integer(JawaMasehi(jawaYear))).value - jawaYear) <= 1
  {
    JawaMasehiMonotone(BASE_JAWA, jawaYear);
    RoundTripWithinOne(jawaYear);
  }

  /** Sample values of the inverse. */
  lemma MasehiJawaSamples()
    ensures MasehiJawaDirect(Integer(1633)) == Ok(1555)
    ensures MasehiJawaDirect(Integer(2022)) == Ok(1955)
    ensures MasehiJawaDirect(Integer(1983)) == Ok(1915)
    ensures MasehiJawaDirect(Integer(1666)) == Ok(1588)
  {
    assert MasehiJawa(2022) == MasehiJawaSearch(2022, 1955, 1);
    assert MasehiJawa(1983) == MasehiJawaSearch(1983, 1915, 1);
  }

  // ---------------------------------------------------------------------
  // Legacy reference table (tabelKonstantaKonversiTahun)
  // ---------------------------------------------------------------------

  /** One 34-year band of the legacy table. */
  datatype ReferenceEntry = ReferenceEntry(konstan: int, tahunAwal: int, tahunAkhir: int)

  /** Band i of the table that starts at `baseYear`. */
  function Band(baseYear: int, i: nat): ReferenceEntry
  {
    ReferenceEntry(
      Max(INITIAL_DIFFERENCE - i * DIFFERENCE_DECAY, MIN_DIFFERENCE),
      baseYear + i * CYCLE_LENGTH,
      baseYear + i * CYCLE_LENGTH + CYCLE_LENGTH - 1)
  }

  /** The 78-band table that starts at `baseYear`. */
  function ReferenceTable(baseYear: int): seq<ReferenceEntry>
  {
    seq(TABLE_SIZE, i requires 0 <= i < TABLE_SIZE => Band(baseYear, i))
  }

  /** tabelKonstantaKonversiTahun: 78 pushes, each band 34 years on from
      the previous one with a constant one smaller, never below 1. */
  method TabelKonstantaKonversiTahun(baseYear: int) returns (table: seq<ReferenceEntry>)
    ensures table == ReferenceTable(baseYear)
  {
    table := [];
    var currentYear := baseYear;
    var currentConstant := INITIAL_DIFFERENCE;
    for i := 0 to TABLE_SIZE
      invariant |table| == i
      invariant forall k :: 0 <= k < i ==> table[k] == Band(baseYear, k)
      invariant currentYear == baseYear + i * CYCLE_LENGTH
      invariant currentConstant == Max(INITIAL_DIFFERENCE - i * DIFFERENCE_DECAY, MIN_DIFFERENCE)
    {
      table := table + [ReferenceEntry(
        Max(currentConstant, MIN_DIFFERENCE),
        currentYear,
        currentYear + CYCLE_LENGTH - 1)];
      currentConstant := Max(currentConstant - DIFFERENCE_DECAY, MIN_DIFFERENCE);
      currentYear := currentYear + CYCLE_LENGTH;
    }
  }

  /** tabelKonstantaKonversiTahunJawa: the table from 1555 AJ. */
  method TabelKonstantaKonversiTahunJawa() returns (table: seq<ReferenceEntry>)
    ensures table == ReferenceTable(BASE_JAWA)
    ensures |table| == 78 && table[0] == ReferenceEntry(78, 1555, 1588)
  {
    table := TabelKonstantaKonversiTahun(BASE_JAWA);
  }

  /** tabelKonstantaKonversiTahunMasehi: the table from 1633 CE. */
  method TabelKonstantaKonversiTahunMasehi() returns (table: seq<ReferenceEntry>)
    ensures table == ReferenceTable(BASE_GREGORIAN)
    ensures |table| == 78 && table[0] == ReferenceEntry(78, 1633, 1666)
  {
    table := TabelKonstantaKonversiTahun(BASE_GREGORIAN);
  }

  /** The table has 78 bands of 34 years each; consecutive bands touch;
      the constant starts at 78 and drops by exactly one per band, so it
      never reaches the floor of 1 before the last band. */
  lemma ReferenceTableShape(baseYear: int)
    ensures |ReferenceTable(baseYear)| == TABLE_SIZE
    ensures ReferenceTable(baseYear)[0] == ReferenceEntry(INITIAL_DIFFERENCE, baseYear, baseYear + CYCLE_LENGTH - 1)
    ensures forall i :: 0 <= i < TABLE_SIZE ==>
      && ReferenceTable(baseYear)[i].tahunAkhir - ReferenceTable(baseYear)[i].tahunAwal == CYCLE_LENGTH - 1
      && ReferenceTable(baseYear)[i].konstan == INITIAL_DIFFERENCE - i >= MIN_DIFFERENCE
    ensures forall i :: 0 <= i < TABLE_SIZE - 1 ==>
      && ReferenceTable(baseYear)[i + 1].tahunAwal == ReferenceTable(baseYear)[i].tahunAkhir + 1
      && ReferenceTable(baseYear)[i + 1].konstan == ReferenceTable(baseYear)[i].konstan - 1
    ensures ReferenceTable(baseYear)[TABLE_SIZE - 1].konstan == MIN_DIFFERENCE
  {
  }

  /** The band of the table from `baseYear` that holds `year`, for a year
      the table covers. */
  lemma ReferenceTableCovers(baseYear: int, year: int)
    requires baseYear <= year < baseYear + TABLE_SIZE * CYCLE_LENGTH
    ensures var i := (year - baseYear) / CYCLE_LENGTH;
      && 0 <= i < TABLE_SIZE
      && ReferenceTable(baseYear)[i].tahunAwal <= year <= ReferenceTable(baseYear)[i].tahunAkhir
  {
  }

  /** The Javanese table and the forward formula agree: every year of band
      i converts by adding that band's constant. */
  lemma ReferenceTableMatchesJawaMasehi(i: nat, jawaYear: int)
    requires i < TABLE_SIZE
    requires ReferenceTable(BASE_JAWA)[i].tahunAwal <= jawaYear <= ReferenceTable(BASE_JAWA)[i].tahunAkhir
    ensures JawaMasehi(jawaYear) == jawaYear + ReferenceTable(BASE_JAWA)[i].konstan
  {
    DifferenceInBand(i, jawaYear - BASE_JAWA - CYCLE_LENGTH * i);
    DifferenceClosedForm(jawaYear);
  }

  // ---------------------------------------------------------------------
  // Legacy lookup (cariTahunReferensi)
  // ---------------------------------------------------------------------

  /** The year range the lookup takes for "likely Javanese". */
  predicate IsLikelyJavanese(tahun: int)
  {
    1000 <= tahun <= 3000
  }

  /** The year range the lookup takes for "likely Gregorian". */
  predicate IsLikelyGregorian(tahun: int)
  {
    1600 <= tahun <= 4000
  }

  /** The base the constant is measured from: Javanese only when the year
      is likely Javanese and not likely Gregorian. */
  function KonstanBase(tahun: int): int
  {
    if IsLikelyJavanese(tahun) && !IsLikelyGregorian(tahun) then BASE_JAWA else BASE_GREGORIAN
  }

  /** The base the band is measured from: Javanese whenever the year is
      likely Javanese. */
  function RangeBase(tahun: int): int
  {
    if IsLikelyJavanese(tahun) then BASE_JAWA else BASE_GREGORIAN
  }

  /** cariTahunReferensi: the table argument is not read; the band is
      computed from the year. Before the base, whole cycles are counted with
      floor on the distance. */
  function CariTahunReferensi(table: seq<ReferenceEntry>, tahun: int): (r: Option<ReferenceEntry>)
    ensures r.Some?
    ensures r.value.konstan >= MIN_DIFFERENCE
    ensures r.value.tahunAkhir - r.value.tahunAwal == CYCLE_LENGTH - 1
    ensures tahun >= RangeBase(tahun) ==> r.value.tahunAwal <= tahun <= r.value.tahunAkhir
  {
    var konstanFromBase := tahun - KonstanBase(tahun);
    var cyclesPassed := Abs(konstanFromBase) / CYCLE_LENGTH;
    var difference :=
      if konstanFromBase >= 0 then INITIAL_DIFFERENCE - cyclesPassed
      else INITIAL_DIFFERENCE + cyclesPassed;
    var baseYear := RangeBase(tahun);
    var yearsFromBase := tahun - baseYear;
    var cycleIndex := Abs(yearsFromBase) / CYCLE_LENGTH;
    var rangeStart :=
      if yearsFromBase >= 0 then baseYear + cycleIndex * CYCLE_LENGTH
      else baseYear - cycleIndex * CYCLE_LENGTH - 1 - CYCLE_LENGTH + 1;
    var rangeEnd :=
      if yearsFromBase >= 0 then rangeStart + CYCLE_LENGTH - 1
      else baseYear - cycleIndex * CYCLE_LENGTH - 1;
    Some(ReferenceEntry(Max(difference, MIN_DIFFERENCE), rangeStart, rangeEnd))
  }

  /** The table argument makes no difference. */
  lemma CariTahunReferensiIgnoresTable(t1: seq<ReferenceEntry>, t2: seq<ReferenceEntry>, tahun: int)
    ensures CariTahunReferensi(t1, tahun) == CariTahunReferensi(t2, tahun)
  {
  }

  /** cariTahunReferensiJawa: the lookup over the Javanese table. */
  function CariTahunReferensiJawa(tahun: int): (r: Option<ReferenceEntry>)
    ensures r.Some? && r.value.konstan >= MIN_DIFFERENCE
  {
    CariTahunReferensi(ReferenceTable(BASE_JAWA), tahun)
  }

  /** cariTahunReferensiMasehi: the lookup over the Gregorian table. */
  function CariTahunReferensiMasehi(tahun: int): (r: Option<ReferenceEntry>)
    ensures r.Some? && r.value.konstan >= MIN_DIFFERENCE
  {
    CariTahunReferensi(ReferenceTable(BASE_GREGORIAN), tahun)
  }

  /** Before the base the band misses its year exactly when the distance to
      the base is a whole number of cycles: then the band ends one year
      before the year. */
  lemma CariBandBeforeBase(tahun: int)
    requires tahun < RangeBase(tahun)
    ensures var e := CariTahunReferensi([], tahun).value;
      && (e.tahunAwal <= tahun <= e.tahunAkhir <==> (RangeBase(tahun) - tahun) % CYCLE_LENGTH != 0)
      && ((RangeBase(tahun) - tahun) % CYCLE_LENGTH == 0 ==> e.tahunAkhir == tahun - 1)
  {
    var n := RangeBase(tahun) - tahun;
    var q := n / CYCLE_LENGTH;
    assert n == CYCLE_LENGTH * q + n % CYCLE_LENGTH;
  }

  /** For a year from 1555 to 3000 the band is the Javanese table's band
      that holds the year. */
  lemma CariBandFromJawaTable(tahun: int)
    requires BASE_JAWA <= tahun <= 3000
    ensures var i := (tahun - BASE_JAWA) / CYCLE_LENGTH;
      var e := CariTahunReferensi([], tahun).value;
      && 0 <= i < TABLE_SIZE
      && e.tahunAwal == ReferenceTable(BASE_JAWA)[i].tahunAwal
      && e.tahunAkhir == ReferenceTable(BASE_JAWA)[i].tahunAkhir
  {
  }

  /** For a year from 1633 to 4000 the constant is the Gregorian table's
      constant for the band that holds the year, while from 1555 up to 1599
      it is the Javanese table's. */
  lemma CariKonstanFromTables(tahun: int)
    ensures BASE_GREGORIAN <= tahun <= 4000 ==>
      var i := (tahun - BASE_GREGORIAN) / CYCLE_LENGTH;
      && 0 <= i < TABLE_SIZE
      && ReferenceTable(BASE_GREGORIAN)[i].tahunAwal <= tahun <= ReferenceTable(BASE_GREGORIAN)[i].tahunAkhir
      && CariTahunReferensi([], tahun).value.konstan == ReferenceTable(BASE_GREGORIAN)[i].konstan
    ensures BASE_JAWA <= tahun < 1600 ==>
      var i := (tahun - BASE_JAWA) / CYCLE_LENGTH;
      && 0 <= i < TABLE_SIZE
      && CariTahunReferensi([], tahun).value.konstan == ReferenceTable(BASE_JAWA)[i].konstan
  {
  }

  /** From 1600 to 1632 the two base tests disagree: the constant is
      measured from 1633 and stays 78, while the band is measured from 1555
      and is the Javanese table's band i (1 or 2), whose own constant 78 - i
      is what the forward map adds. So for these years the lookup's constant
      overshoots the forward map by i. */
  lemma CariTwoBasesDisagree(tahun: int)
    requires 1600 <= tahun <= 1632
    ensures KonstanBase(tahun) == BASE_GREGORIAN && RangeBase(tahun) == BASE_JAWA
    ensures var i := (tahun - BASE_JAWA) / CYCLE_LENGTH;
      var e := CariTahunReferensi([], tahun).value;
      && 1 <= i <= 2
      && e.konstan == INITIAL_DIFFERENCE
      && e.tahunAwal == ReferenceTable(BASE_JAWA)[i].tahunAwal
      && e.tahunAkhir == ReferenceTable(BASE_JAWA)[i].tahunAkhir
      && ReferenceTable(BASE_JAWA)[i].konstan == INITIAL_DIFFERENCE - i
      && JawaMasehi(tahun) == tahun + e.konstan - i
  {
    var i := (tahun - BASE_JAWA) / CYCLE_LENGTH;
    CariBandFromJawaTable(tahun);
    ReferenceTableMatchesJawaMasehi(i, tahun);
  }

  /** From 1000 to 1554 the lookup counts whole cycles back from 1555 with
      floor, while the forward map counts started cycles with ceiling: the
      two constants agree exactly when the distance is a multiple of 34, and
      otherwise the lookup's is one smaller. */
  lemma CariFloorVersusCeiling(tahun: int)
    requires 1000 <= tahun < BASE_JAWA
    ensures var konstan := CariTahunReferensi([], tahun).value.konstan;
      && konstan == INITIAL_DIFFERENCE + (BASE_JAWA - tahun) / CYCLE_LENGTH
      && Difference(tahun) == INITIAL_DIFFERENCE + (BASE_JAWA - tahun + CYCLE_LENGTH - 1) / CYCLE_LENGTH
      && (konstan == Difference(tahun) <==> (BASE_JAWA - tahun) % CYCLE_LENGTH == 0)
      && (konstan != Difference(tahun) ==> konstan == Difference(tahun) - 1)
  {
    var n := BASE_JAWA - tahun;
    assert n == CYCLE_LENGTH * (n / CYCLE_LENGTH) + n % CYCLE_LENGTH;
  }

  /** Sample lookups. For 2022 the constant comes from the Gregorian base
      (67) but the band from the Javanese base (1997-2030), whose own
      constant in the Javanese table is 65. */
  lemma CariTahunReferensiSamples()
    ensures CariTahunReferensi([], 1555).value.konstan == 78
    ensures CariTahunReferensi([], 1633).value.konstan == 78
    ensures CariTahunReferensi([], 2022).value == ReferenceEntry(67, 1997, 2030)
    ensures ReferenceTable(BASE_JAWA)[13] == ReferenceEntry(65, 1997, 2030)
    ensures CariTahunReferensi([], 1521).value == ReferenceEntry(79, 1487, 1520)
    ensures CariTahunReferensi([], 1520).value.konstan == 79 && Difference(1520) == 80
  {
  }
}
