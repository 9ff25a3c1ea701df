# Javanese, Gregorian and Hijri year conversion (petungan)

This project models the year-conversion core of the petungan library in
Dafny and proves properties of the model. The library converts years between
the Javanese calendar (AJ), the Gregorian calendar (CE) and the Hijri
calendar (AH). The model has four parts:

- `values.dfy` (module `Values`) holds what the other modules share:
  - the argument as JavaScript validation sees it, an integer or anything else;
  - the errors the core throws;
  - `Result` for "returns or throws";
  - `Logged` for "and wrote a `console.warn` first".
- `pelok.dfy` (module `Pelok`) models `src/pelok.js`:
  - the calendar constants;
  - the Direct Javanese-to-Gregorian formula (`JawaMasehi`,
    `KonversiJawaMasehiDirect`);
  - its inverse, a loop of at most ten rounds. The method
    `KonversiMasehiJawaDirect` is proved equal to the specification
    `MasehiJawaDirect`, which is built on `MasehiJawaSearch`;
  - the legacy 78-band reference table, built by the method
    `TabelKonstantaKonversiTahun` and specified by `ReferenceTable`;
  - the analytic legacy lookup `CariTahunReferensi`, which ignores its table.
- `jm.dfy` (module `Jm`) models the Javanese <-> Gregorian facade of
  `src/jm.js`. It validates, tries the Direct conversion, and on a throw
  warns and falls back to the legacy lookup.
- `jh.dfy` (module `Jh`) models the Javanese <-> Hijri offset of 512 years
  of `src/jh.js`. Years before the correlation point get a warning.

The main results:

- **Forward map.** The forward map is one closed formula,
  `j + max(78 - floor((j - 1555) / 34), 1)`. This holds before the base as
  well, where the source counts cycles with a ceiling on the negated
  distance. The map climbs in steps of 0 or 1 and is monotone. At most two
  adjacent Javanese years share a Gregorian year.
- **Inverse loop.** The loop converges for every Gregorian year from -32367
  on, within four rounds, to a year that the forward map sends back to the
  input. Below -32367 the first error already exceeds 1000 years and the
  loop throws. So the "return the last estimate" exit is never reached.
- **Legacy lookup.** The lookup never returns null. Its quirks are stated
  as lemmas:
  - the constant and the band are measured from different bases for years
    from 1600 to 3000; from 1600 to 1632 the constant stays 78 while the
    band's own constant, the one the forward map adds, is 77 or 76;
  - from 1000 to 1554 it counts cycles back from the base with floor where
    the forward map counts them with ceiling, so its constant is one smaller
    unless the distance is a multiple of 34 (1520: 79 against 80);
  - a band misses its year when the year is a whole number of cycles
    before the base.
- **Facade.** It never raises its "outside supported range" error. It warns
  exactly for the Gregorian years below -32367.

The code disagrees with its own documentation in two places and with its
tests in three; the model follows the code.

- The doc comments at `src/jh.js:39` and `src/jh.js:70` say that years
  before the correlation point are returned unchanged, and the tests at
  `src/__tests__/jh.test.js:27-38` and `src/__tests__/jh.test.js:76-87`
  expect 1500 AJ and 1000 AH back as they are. The code applies the offset
  to every integer and only adds a warning: 1500 AJ gives 988 AH and
  1000 AH gives 1512 AJ (`Jh.OffsetIsBaseDistance`, `Jh.BeforeBaseSamples`).
- The doc comment at `src/jm.js:39-42` describes the Gregorian-to-Javanese
  answer as g - max(78 - floor((g - 1633) / 34), 1). The code runs the
  Direct inverse instead, and the two differ: for 1700 the formula gives
  1623, which converts forward to 1699, while the code gives 1624
  (`Jm.MasehiKeJawaDiffersFromDocumentedFormula`).
- The facade throws on a non-integer argument (`src/jm.js:49-51`,
  `src/jm.js:88-90`), as its `@throws` comments say. The tests at
  `src/__tests__/jm.test.js:51-57` and `src/__tests__/jm.test.js:87-93`
  expect it not to throw.
- The tests at `src/__tests__/validation.test.js:72-85` expect the facade to
  give the recorded year pairs that the Precise functions give. The facade
  runs the Direct functions instead, which agree with the records for 1555,
  1900 and 1933 AJ but run one year ahead from 1946 AJ on: 1955 AJ gives
  2022 and 2021 gives 1954 AJ, where the records say 2021 and 1955
  (`Jm.FacadeAgainstRecordedYears`).

## Model

| member | source | states |
|---|---|---|
| Values.InvalidYearMessage | src/jm.js:49-51 | the message names the calendar between "Invalid " and " year: must be an integer" |
| Values.InvalidYearMessagesDiffer | src/jh.js:47-49 | different calendars give different validation messages |
| Pelok.ConstantsAgree | src/pelok.js:26-35 | 1555 - 1043 is the Hijri offset 512, and 1633 - 1555 is the initial difference 78 |
| Pelok.Difference | src/pelok.js:78 | the difference added to a Javanese year is never below the minimum of 1 |
| Pelok.JawaMasehi | src/pelok.js:58-80 | the forward map of an integer is at least one year later than its argument |
| Pelok.KonversiJawaMasehiDirect | src/pelok.js:50-81 | it throws the Javanese validation error exactly on non-integers, and otherwise returns a strictly later year |
| Pelok.DifferenceClosedForm | src/pelok.js:58-80 | both branches (floor after the base, ceiling before it) and the base shortcut are the single formula max(78 - floor((j - 1555) / 34), 1) |
| Pelok.JawaMasehiMatchesFormula | src/pelok.js:50-81 | the forward map as written equals the closed formula on every integer |
| Pelok.DifferenceInBand | src/pelok.js:67-70 | within band k after the base the difference is the constant max(78 - k, 1) |
| Pelok.DifferenceDropsAtBoundary | src/pelok.js:67-70 | at each band boundary after the base up to band 77 the difference drops by exactly 1 and stays at least 1 |
| Pelok.DifferenceDrop | src/pelok.js:64-78 | the difference never grows, and over d years it drops by at most ceil(d / 34) |
| Pelok.JawaMasehiStep | src/pelok.js:64-80 | forward(j + 1) - forward(j) is 0 or 1 |
| Pelok.JawaMasehiMonotone | src/pelok.js:64-80 | the forward map is monotone |
| Pelok.JawaMasehiAlmostInjective | src/pelok.js:64-80 | two Javanese years with the same Gregorian year are at most one year apart |
| Pelok.JawaMasehiSamples | src/pelok.js:50-81 | 1555 -> 1633, 1955 -> 2022, 1000 -> 1095, 1933 -> 2000 |
| Pelok.KonversiMasehiJawaDirect | src/pelok.js:96-132 | the loop (validation, base shortcut, seed 78 back, at most 10 rounds, abort beyond 1000) returns exactly what the specification MasehiJawaDirect gives |
| Pelok.MasehiJawaSearchExit | src/pelok.js:112-131 | a converged exit found a year whose forward image is the target, within the 10 rounds; an abort saw an error above 1000 |
| Pelok.MasehiJawaExit | src/pelok.js:102-131 | the same for the whole inverse, base shortcut included |
| Pelok.SearchRound | src/pelok.js:113-127 | one round: stop on a zero error, abort above 1000, otherwise move the estimate back by the error |
| Pelok.NextError | src/pelok.js:113-121 | the next error is the change of the difference between the two estimates; it keeps the sign and is at most ceil(abs(error) / 34) |
| Pelok.NoThirdUnitError | src/pelok.js:113-121 | two errors of size one in a row are followed by a zero error |
| Pelok.ConvergesFromUnitError | src/pelok.js:112-122 | from an error of at most 1 the loop converges within 2 more rounds |
| Pelok.ConvergesFromSmallError | src/pelok.js:112-122 | from an error of at most 30 the loop converges within 3 more rounds |
| Pelok.ConvergesFromBoundedError | src/pelok.js:112-127 | from an error of at most 1000 the loop converges within 4 more rounds |
| Pelok.MasehiJawaSeed | src/pelok.js:103-109 | away from 1633 the inverse starts the loop at round 0 from the year 78 back |
| Pelok.FirstError | src/pelok.js:108-114 | the seed's error is at most 1000 exactly for the Gregorian years from -32367 on |
| Pelok.SeedConverges | src/pelok.js:108-127 | from the seed the loop converges within 4 rounds for every year from -32367 on |
| Pelok.MasehiJawaConverges | src/pelok.js:96-131 | for every year from -32367 on the inverse converges within 4 rounds to a year the forward map sends back to it, so the last-estimate exit is never reached |
| Pelok.MasehiJawaAborts | src/pelok.js:124-127 | below -32367 the inverse throws on the first round |
| Pelok.RoundTripWithinOne | src/pelok.js:96-131 | forward then inverse returns within one year of the start whenever the forward image is at least -32367 |
| Pelok.InverseThenForward | src/pelok.js:113-118 | inverse then forward gives back the Gregorian year exactly, from -32367 on |
| Pelok.RoundTripAfterBase | src/pelok.js:50-131 | forward then inverse is within one year for every Javanese year from 1555 on |
| Pelok.MasehiJawaSamples | src/pelok.js:103-118 | 1633 -> 1555, 2022 -> 1955, 1983 -> 1915, 1666 -> 1588 |
| Pelok.TabelKonstantaKonversiTahun | src/pelok.js:144-165 | the pushed table equals ReferenceTable(base): entry i is (max(78 - i, 1), base + 34i, base + 34i + 33) |
| Pelok.TabelKonstantaKonversiTahunJawa | src/pelok.js:170-172 | the table from 1555, with 78 entries, starting with (78, 1555, 1588) |
| Pelok.TabelKonstantaKonversiTahunMasehi | src/pelok.js:177-179 | the table from 1633, with 78 entries, starting with (78, 1633, 1666) |
| Pelok.ReferenceTableShape | src/pelok.js:151-161 | 78 bands of 34 years; consecutive bands touch; the constant starts at 78, drops by exactly one per band and ends at 1 |
| Pelok.ReferenceTableCovers | src/pelok.js:151-161 | every year in the 78 x 34 years from the base lies in band (year - base) / 34 |
| Pelok.ReferenceTableMatchesJawaMasehi | src/pelok.js:151-161 | in the Javanese table every year of band i converts forward by adding that band's constant |
| Pelok.CariTahunReferensi | src/pelok.js:191-243 | never null; constant at least 1; bands of 34 years; from the range base on, the year lies in its band |
| Pelok.CariTahunReferensiIgnoresTable | src/pelok.js:191 | the table argument makes no difference to the result |
| Pelok.CariTahunReferensiJawa | src/pelok.js:249-251 | the lookup over the Javanese table never returns null, and its constant is at least 1 |
| Pelok.CariTahunReferensiMasehi | src/pelok.js:256-258 | the lookup over the Gregorian table never returns null, and its constant is at least 1 |
| Pelok.CariBandBeforeBase | src/pelok.js:223-234 | before the range base the band holds the year exactly when the distance is not a multiple of 34; otherwise the band ends the year before |
| Pelok.CariBandFromJawaTable | src/pelok.js:223-234 | for 1555..3000 the band is the Javanese table's band that holds the year |
| Pelok.CariKonstanFromTables | src/pelok.js:197-221 | for 1633..4000 the constant is the Gregorian table's band constant; for 1555..1599 it is the Javanese table's |
| Pelok.CariTwoBasesDisagree | src/pelok.js:197-234 | for 1600..1632 the constant base is 1633 and the range base 1555; the constant is 78 while the band is the Javanese table's band i (1 or 2) with constant 78 - i, and the forward map adds 78 - i |
| Pelok.CariFloorVersusCeiling | src/pelok.js:197-221 | for 1000..1554 the constant is 78 plus the whole cycles back from 1555 (floor), the forward difference is 78 plus the started cycles (ceiling); they agree exactly when the distance is a multiple of 34, otherwise the constant is one smaller |
| Pelok.CariTahunReferensiSamples | src/pelok.js:191-243 | 1555 -> 78 and 1633 -> 78; 2022 -> (67, 1997, 2030), whose band carries 65 in the Javanese table; 1521 -> (79, 1487, 1520); 1520 -> constant 79 while the forward difference is 80 |
| Jm.KonversiTahunMasehiKeTahunJawa | src/jm.js:48-66 | a year comes back exactly for integers; a non-integer throws the Gregorian validation error without a warning |
| Jm.KonversiTahunJawaKeTahunMasehi | src/jm.js:87-105 | a year comes back exactly for integers; a non-integer throws the Javanese validation error without a warning |
| Jm.JawaKeMasehiIsDirect | src/jm.js:92-104 | for every integer the facade gives the Direct forward result without a warning, a strictly later year |
| Jm.MasehiKeJawaIsDirect | src/jm.js:53-54 | from -32367 on the facade gives the Direct inverse's result without a warning, and it converts forward to the input |
| Jm.MasehiKeJawaFallback | src/jm.js:55-64 | below -32367 the facade warns and subtracts the Gregorian lookup's constant, 78 + floor((1633 - g) / 34) |
| Jm.MasehiKeJawaWarnsExactly | src/jm.js:53-65 | the facade warns exactly for integers below -32367 |
| Jm.MasehiJawaMasehiRoundTrip | src/jm.js:48-105 | Gregorian to Javanese and back gives the Gregorian year exactly, from -32367 on |
| Jm.JawaMasehiJawaRoundTrip | src/jm.js:48-105 | for every Javanese year the forward call never warns; the way back warns exactly when the Gregorian year is below -32367, and otherwise lands within one year of the start |
| Jm.JawaMasehiJawaRoundTripAfterBase | src/jm.js:48-105 | from 1555 on Javanese to Gregorian and back is within one year, without any warning |
| Jm.MasehiKeJawaUniquePreimage | src/jm.js:48-66 | from -32367 on, a Javanese year that is the only one around it converting forward to g is what the facade returns for g, without a warning |
| Jm.FacadeAgainstRecordedYears | src/jm.js:48-105 | 1900 -> 1968 and 1933 -> 2000 as recorded; 1946 -> 2013, 1955 -> 2022, 1959 -> 2026 and back 2012 -> 1945, 2021 -> 1954, 2025 -> 1958, each one year off the recorded pair, without a warning |
| Jm.MasehiKeJawaDiffersFromDocumentedFormula | src/jm.js:39-66 | for 1700 the documented formula gives 1623, whose forward image is 1699, while the facade gives 1624 without a warning, whose forward image is 1700 |
| Jm.FacadeSamples | src/jm.js:48-105 | 1955 -> 2022; 2022 -> 1955; 1633 -> 1555; -100000 -> -103067 with a warning |
| Jh.KonversiTahunJawaKeTahunHijriyah | src/jh.js:45-57 | a year comes back exactly for integers; a non-integer throws the Javanese validation error; an integer is warned about exactly when it is below 1555 |
| Jh.KonversiTahunHijriyahKeTahunJawa | src/jh.js:76-88 | a year comes back exactly for integers; a non-integer throws the Hijri validation error; an integer is warned about exactly when it is below 1043 |
| Jh.JawaHijriyahJawa | src/jh.js:45-88 | Javanese to Hijri and back gives the Javanese year, for every integer |
| Jh.HijriyahJawaHijriyah | src/jh.js:45-88 | Hijri to Javanese and back gives the Hijri year, for every integer |
| Jh.WarningsCorrespond | src/jh.js:52-54 | a Javanese year is warned about exactly when the Hijri year it converts to is warned about on the way back |
| Jh.WarnsExactlyBeforeBase | src/jh.js:52-56 | for every integer: Javanese to Hijri gives the year minus 512 with a warning exactly below 1555; Hijri to Javanese gives the year plus 512 with a warning exactly below 1043 |
| Jh.BeforeBaseSamples | src/jh.js:45-88 | 1500 AJ gives 988 AH and 1000 AH gives 1512 AJ, each with a warning, not the input unchanged |
| Jh.OffsetIsBaseDistance | src/jh.js:24-26 | every integer, warned or not, moves by exactly 1555 - 1043 years |
| Jh.CorrelationPoint | src/jh.js:52-56 | 1555 AJ and 1043 AH map to each other without a warning, as do 1556 and 1044; the years before them are warned about |
| Jh.OffsetPreservesDistance | src/jh.js:56 | both conversions keep the distance between any two years |

## Left out

- The Precise (Julian-Day-based) conversions are left out. They are not
  defined in `src/pelok.js`, which is the only engine file of this model.
- `src/index.js` is left out because it only re-exports the conversions.
  `vite.config.js` and `rollup.config.js` are left out because they are
  build configuration.
- The text written by `console.warn` is left out. The model records only
  whether a warning was written, in `Logged.warned`.
- JavaScript's `typeof` and `Number.isInteger` checks are collapsed into the
  tag of `JsValue`. Values other than integers are modelled as one case.
- Years are unbounded integers. The model does not capture JavaScript
  doubles losing integer precision beyond 2^53.
- `Math.floor` and `Math.ceil` are only ever applied to quotients of
  integers. They are modelled with floor division.
- The `try`/`catch` in `cariTahunReferensi` that returns `null` cannot
  catch anything on numbers, so it is not modelled. The `null` checks in
  the facade are kept, and `CariTahunReferensi` is proved never to return
  `None`.
- The unused local `isJavanese` in `tabelKonstantaKonversiTahun` is not
  modelled.
- The loop specification `MasehiJawaSearch` writes the forward step with
  the closed formula `JawaMasehiFormula`. The method itself calls
  `JawaMasehi`, and the two are proved equal for every integer.
- Pelok.TabelKonstantaKonversiTahun: it builds the table as a value
  (`seq`) rather than a JavaScript array pushed in place, so aliasing of the
  returned array is not captured.
- The text of the thrown error messages is modelled only for the
  validation errors (`InvalidYearMessage`). The other errors carry the
  year they name instead of their message text.
