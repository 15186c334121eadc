/** The logo table of src/utils/teamLogos.js and `getLogoSrc`, a lookup by
    lower-cased team abbreviation. */
module TeamLogos {
  import opened Wrappers
  import opened Text

  function LogoPath(key: string): string
  {
    "/logos/" + key + ".svg"
  }

  /** `teamLogos`: thirty lower-case abbreviations and their logo paths. */
  const Logos: map<string, string> := map[
    "atl" := "/logos/atl.svg", "bos" := "/logos/bos.svg", "bkn" := "/logos/bkn.svg",
    "cha" := "/logos/cha.svg", "chi" := "/logos/chi.svg", "cle" := "/logos/cle.svg",
    "dal" := "/logos/dal.svg", "den" := "/logos/den.svg", "det" := "/logos/det.svg",
    "gsw" := "/logos/gsw.svg", "hou" := "/logos/hou.svg", "ind" := "/logos/ind.svg",
    "lac" := "/logos/lac.svg", "lal" := "/logos/lal.svg", "mem" := "/logos/mem.svg",
    "mia" := "/logos/mia.svg", "mil" := "/logos/mil.svg", "min" := "/logos/min.svg",
    "nop" := "/logos/nop.svg", "nyk" := "/logos/nyk.svg", "okc" := "/logos/okc.svg",
    "orl" := "/logos/orl.svg", "phi" := "/logos/phi.svg", "phx" := "/logos/phx.svg",
    "por" := "/logos/por.svg", "sac" := "/logos/sac.svg", "sas" := "/logos/sas.svg",
    "tor" := "/logos/tor.svg", "uta" := "/logos/uta.svg", "was" := "/logos/was.svg"]

  /** Every entry maps its key `k` to "/logos/" + k + ".svg", and every key is
      already lower case. */
  lemma LogoTableShape()
    ensures forall k :: k in Logos ==> Logos[k] == LogoPath(k) && ToLower(k) == k
  {
  }

  /** `getLogoSrc(abbreviation)`, reading only the table's own entries. */
  function GetLogoSrc(abbreviation: Option<string>): (r: Option<string>)
    ensures !Truthy(abbreviation) ==> r == None
    ensures r.Some? <==> Truthy(abbreviation) && ToLower(abbreviation.value) in Logos
    ensures r.Some? ==> r.value == LogoPath(ToLower(abbreviation.value))
  {
    if !Truthy(abbreviation) then None
    else
      var key := ToLower(abbreviation.value);
      LogoTableShape();
      if key in Logos then Some(Logos[key]) else None
  }

  /** The lookup ignores case: an abbreviation and its lower-case form find
      the same logo. */
  lemma LogoCaseInsensitive(s: string)
    ensures GetLogoSrc(Some(s)) == GetLogoSrc(Some(ToLower(s)))
  {
    ToLowerIdempotent(s);
  }

  /** Upper-case abbreviations, as the API may send them, find their logo. */
  lemma LogoExamples()
    ensures GetLogoSrc(Some("LAL")) == Some("/logos/lal.svg")
    ensures GetLogoSrc(Some("NBA")) == None
    ensures GetLogoSrc(Some("")) == None
  {
    assert ToLower("LAL") == "lal";
    assert ToLower("NBA") == "nba";
  }

  /** What `teamLogos[key] || null` yields on a plain JavaScript object: an
      own entry, an inherited member of `Object.prototype`, or `null`. */
  datatype LookupValue = Null | Path(path: string) | InheritedMember(name: string)

  /** The members of `Object.prototype` whose names are all lower case, so
      that a lower-cased key can reach them. */
  const InheritedLowerCaseMembers: set<string> := {"constructor", "__proto__"}

  /** `getLogoSrc` as written: the bracket lookup also finds inherited members. */
  function GetLogoSrcAsWritten(abbreviation: Option<string>): (r: LookupValue)
    ensures !Truthy(abbreviation) ==> r == Null
    ensures r.Path? ==> GetLogoSrc(abbreviation) == Some(r.path)
    ensures r.Null? ==> GetLogoSrc(abbreviation) == None
  {
    if !Truthy(abbreviation) then Null
    else
      var key := ToLower(abbreviation.value);
      if key in Logos then Path(Logos[key])
      else if key in InheritedLowerCaseMembers then InheritedMember(key)
      else Null
  }

  /** An abbreviation outside the table is not always answered with `null`:
      "Constructor" yields the `Object` constructor, a truthy value that the
      game card would use as an image source. */
  lemma InheritedMemberLeaks()
    ensures GetLogoSrcAsWritten(Some("Constructor")) == InheritedMember("constructor")
    ensures GetLogoSrc(Some("Constructor")) == None
  {
    assert ToLower("Constructor") == "constructor";
    assert "constructor" !in Logos;
  }

  /** The corrected lookup answers with a table path or nothing, and agrees
      with the code as written on every key outside the two inherited names. */
  lemma LogoLookupAgrees(abbreviation: Option<string>)
    requires Truthy(abbreviation) ==> ToLower(abbreviation.value) !in InheritedLowerCaseMembers
    ensures GetLogoSrc(abbreviation).None? <==> GetLogoSrcAsWritten(abbreviation) == Null
    ensures GetLogoSrc(abbreviation).Some? ==> GetLogoSrcAsWritten(abbreviation) == Path(GetLogoSrc(abbreviation).value)
    ensures GetLogoSrc(abbreviation).Some? ==> GetLogoSrc(abbreviation).value in Logos.Values
  {
  }
}
