/**
 * The settings validator for CORS_ORIGINS: a comma-separated string
 * becomes the list of its stripped pieces; any other value passes through.
 */
module Config {
  import opened Text

  /** The field's value before validation: the configured string, or a value that is already a list. */
  datatype CorsValue = CorsText(text: string) | CorsList(origins: seq<string>)

  const DEFAULT_CORS_ORIGINS: string := "http://localhost:3000"

  /** validate_cors_origins. */
  function ValidateCorsOrigins(v: CorsValue): (r: CorsValue)
    ensures r.CorsList?
  {
    match v
    case CorsText(s) =>
      var pieces := Split(s, ',');
      CorsList(seq(|pieces|, k requires 0 <= k < |pieces| => Strip(pieces[k])))
    case CorsList(_) => v
  }

  /**
   * A string yields one origin per comma-separated piece, in order, one
   * more than it has commas (empty pieces are kept); each origin is its
   * piece without surrounding whitespace, and holds no comma.
   */
  lemma CorsPieces(s: string)
    ensures var r := ValidateCorsOrigins(CorsText(s)).origins;
      && |r| == Count(s, ',') + 1
      && (forall k :: 0 <= k < |r| ==> r[k] == Strip(Split(s, ',')[k]) && ',' !in r[k])
      && (forall k :: 0 <= k < |r| && r[k] != [] ==> !IsSpace(r[k][0]) && !IsSpace(r[k][|r[k]| - 1]))
  {
    var pieces := Split(s, ',');
    SplitCount(s, ',');
    forall k | 0 <= k < |pieces|
      ensures ',' !in Strip(pieces[k])
      ensures Strip(pieces[k]) != [] ==> !IsSpace(Strip(pieces[k])[0]) && !IsSpace(Strip(pieces[k])[|Strip(pieces[k])| - 1])
    {
      StripSpec(pieces[k]);
    }
  }

  /** The validator's own output passes through it unchanged. */
  lemma CorsIdempotent(v: CorsValue)
    ensures ValidateCorsOrigins(ValidateCorsOrigins(v)) == ValidateCorsOrigins(v)
  {
  }

  /** Joining the origins with commas gives back the string when no piece had surrounding whitespace. */
  lemma CorsRoundTrip(s: string)
    requires forall k :: 0 <= k < |Split(s, ',')| ==> Strip(Split(s, ',')[k]) == Split(s, ',')[k]
    ensures Join(ValidateCorsOrigins(CorsText(s)).origins, ',') == s
  {
    var r := ValidateCorsOrigins(CorsText(s)).origins;
    assert r == Split(s, ',');
    JoinSplit(s, ',');
  }

  /** A string with no comma and no surrounding whitespace is a single origin. */
  lemma SingleOrigin(s: string)
    requires ',' !in s && s != [] && !IsSpace(s[0]) && !IsSpace(s[|s| - 1])
    ensures ValidateCorsOrigins(CorsText(s)) == CorsList([s])
  {
    SplitWithoutSeparator(s, ',');
    StripUntrimmed(s);
  }

  /** The default allows exactly the local development front end. */
  lemma DefaultCorsOrigins()
    ensures ValidateCorsOrigins(CorsText(DEFAULT_CORS_ORIGINS)) == CorsList([DEFAULT_CORS_ORIGINS])
  {
    SingleOrigin(DEFAULT_CORS_ORIGINS);
  }
}
