/** The list of CORS origins read from the ALLOWED_ORIGINS environment
    variable at start-up: `[o.strip() for o in raw.split(",") if o.strip()]`. */
module CorsOrigins {
  import opened Values
  import opened PyStr

  /** The value of the environment variable, "" when it is unset. */
  function RawOrigins(allowed: Option<string>): string
  {
    if allowed.Some? then allowed.value else ""
  }

  /** `origins` for ALLOWED_ORIGINS (`None` when the variable is unset). */
  function Origins(allowed: Option<string>): (r: seq<string>)
    ensures allowed.None? ==> r == []
    ensures |r| <= Count(RawOrigins(allowed), ',') + 1
  {
    var pieces := SplitOn(RawOrigins(allowed), [',']);
    SplitOnCharShape(RawOrigins(allowed), ',');
    assert |pieces| == Count(RawOrigins(allowed), ',') + 1;
    assert allowed.None? ==> pieces == [""] && Strip("") == "";
    StrippedNonBlank(pieces)
  }

  /** Every origin is non-empty, equal to its own `strip()`, and free of
      commas. */
  lemma OriginsShape(allowed: Option<string>)
    ensures forall k :: 0 <= k < |Origins(allowed)| ==>
      Origins(allowed)[k] != "" && Strip(Origins(allowed)[k]) == Origins(allowed)[k]
      && ',' !in Origins(allowed)[k]
  {
    SplitOnCharShape(RawOrigins(allowed), ',');
    StrippedNonBlankAvoids(SplitOn(RawOrigins(allowed), [',']), ',');
    StrippedNonBlankClean(SplitOn(RawOrigins(allowed), [',']));
  }

  /** Origins keep the order of the comma-separated input: the origins of
      `a + "," + b` are those of `a` followed by those of `b`. */
  lemma OriginsInOrder(a: string, b: string)
    requires ',' !in a
    ensures Origins(Some(a + "," + b)) == Origins(Some(a)) + Origins(Some(b))
  {
    SplitOnCharAppend(a, ',', b);
    assert a + "," + b == a + [','] + b;
    StrippedNonBlankAppend([a], SplitOn(b, [',']));
    SplitOnCharAbsent(a, ',');
  }
}
