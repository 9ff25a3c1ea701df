/** The Javanese <-> Hijri conversions: a fixed offset of 512 years in both
    directions, with a warning for years before the two calendars were
    correlated (1555 AJ = 1043 AH). The offset is applied on both sides of
    that point. */
module Jh {
  import opened Values
  import opened Pelok

  /** konversiTahunJawaKeTahunHijriyah: a non-integer throws; otherwise the
      Hijri year is 512 years earlier, with a warning before 1555 AJ. */
  function KonversiTahunJawaKeTahunHijriyah(v: JsValue): (r: Logged<int>)
    ensures r.result.Ok? <==> v.Integer?
    ensures !v.Integer? ==> r == Logged(Err(InvalidYear(Javanese)), false)
    ensures v.Integer? ==> (r.warned <==> v.n < BASE_JAWA)
  {
    match v
    case NonInteger => Logged(Err(InvalidYear(Javanese)), false)
    case Integer(tahunJawa) => Logged(Ok(tahunJawa - HIJRI_OFFSET), tahunJawa < BASE_JAWA)
  }

  /** konversiTahunHijriyahKeTahunJawa: a non-integer throws; otherwise the
      Javanese year is 512 years later, with a warning before 1043 AH. */
  function KonversiTahunHijriyahKeTahunJawa(v: JsValue): (r: Logged<int>)
    ensures r.result.Ok? <==> v.Integer?
    ensures !v.Integer? ==> r == Logged(Err(InvalidYear(Hijri)), false)
    ensures v.Integer? ==> (r.warned <==> v.n < BASE_HIJRI)
  {
    match v
    case NonInteger => Logged(Err(InvalidYear(Hijri)), false)
    case Integer(tahunHijriyah) => Logged(Ok(tahunHijriyah + HIJRI_OFFSET), tahunHijriyah < BASE_HIJRI)
  }

  /** Javanese to Hijri and back gives the Javanese year, for every integer. */
  lemma JawaHijriyahJawa(tahunJawa: int)
    ensures var h := KonversiTahunJawaKeTahunHijriyah(Integer(tahunJawa));
      h.result.Ok? && KonversiTahunHijriyahKeTahunJawa(Integer(h.result.value)).result == Ok(tahunJawa)
  {
  }

  /** Hijri to Javanese and back gives the Hijri year, for every integer. */
  lemma HijriyahJawaHijriyah(tahunHijriyah: int)
    ensures var j := KonversiTahunHijriyahKeTahunJawa(Integer(tahunHijriyah));
      j.result.Ok? && KonversiTahunJawaKeTahunHijriyah(Integer(j.result.value)).result == Ok(tahunHijriyah)
  {
  }

  /** The two warnings mark the same years: a Javanese year is warned about
      exactly when the Hijri year it converts to is. */
  lemma WarningsCorrespond(tahunJawa: int)
    ensures var h := KonversiTahunJawaKeTahunHijriyah(Integer(tahunJawa));
      h.warned == KonversiTahunHijriyahKeTahunJawa(Integer(h.result.value)).warned
  {
  }

  /** Each conversion warns exactly for the integers below its own base,
      and the warning leaves the value as it is. */
  lemma WarnsExactlyBeforeBase(tahun: int)
    ensures KonversiTahunJawaKeTahunHijriyah(Integer(tahun)) == Logged(Ok(tahun - HIJRI_OFFSET), tahun < BASE_JAWA)
    ensures KonversiTahunHijriyahKeTahunJawa(Integer(tahun)) == Logged(Ok(tahun + HIJRI_OFFSET), tahun < BASE_HIJRI)
  {
  }

  /** Years before the correlation point are moved by the offset too:
      1500 AJ gives 988 AH and 1000 AH gives 1512 AJ, each with a warning. */
  lemma BeforeBaseSamples()
    ensures KonversiTahunJawaKeTahunHijriyah(Integer(1500)) == Logged(Ok(988), true)
    ensures KonversiTahunHijriyahKeTahunJawa(Integer(1000)) == Logged(Ok(1512), true)
  {
  }

  /** The offset is the distance between the two bases, and the warning
      does not change it: every integer, before the base or not, is moved
      by exactly that distance. */
  lemma OffsetIsBaseDistance(tahun: int)
    ensures KonversiTahunJawaKeTahunHijriyah(Integer(tahun)).result == Ok(tahun - (BASE_JAWA - BASE_HIJRI))
    ensures KonversiTahunHijriyahKeTahunJawa(Integer(tahun)).result == Ok(tahun + (BASE_JAWA - BASE_HIJRI))
  {
    ConstantsAgree();
  }

  /** The warnings start exactly at the correlation point: 1555 AJ and
      1043 AH convert into each other without a warning, as do the years
      after them, while the year before each is warned about. */
  lemma CorrelationPoint()
    ensures KonversiTahunJawaKeTahunHijriyah(Integer(BASE_JAWA)) == Logged(Ok(BASE_HIJRI), false)
    ensures KonversiTahunHijriyahKeTahunJawa(Integer(BASE_HIJRI)) == Logged(Ok(BASE_JAWA), false)
    ensures KonversiTahunJawaKeTahunHijriyah(Integer(BASE_JAWA + 1)) == Logged(Ok(BASE_HIJRI + 1), false)
    ensures KonversiTahunHijriyahKeTahunJawa(Integer(BASE_HIJRI + 1)) == Logged(Ok(BASE_JAWA + 1), false)
    ensures KonversiTahunJawaKeTahunHijriyah(Integer(BASE_JAWA - 1)) == Logged(Ok(BASE_HIJRI - 1), true)
    ensures KonversiTahunHijriyahKeTahunJawa(Integer(BASE_HIJRI - 1)) == Logged(Ok(BASE_JAWA - 1), true)
  {
  }

  /** Both conversions keep the order of years and the distance between
      them. */
  lemma OffsetPreservesDistance(a: int, b: int)
    ensures KonversiTahunJawaKeTahunHijriyah(Integer(b)).result.value
      - KonversiTahunJawaKeTahunHijriyah(Integer(a)).result.value == b - a
    ensures KonversiTahunHijriyahKeTahunJawa(Integer(b)).result.value
      - KonversiTahunHijriyahKeTahunJawa(Integer(a)).result.value == b - a
  {
  }
}
