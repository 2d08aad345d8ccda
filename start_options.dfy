/**
 * Command-line start options (drossy.stars.core.StartOptions). The argument
 * parser itself is not modelled: it is represented by what it hands back,
 * the main parameters and the token given after "-side", if any.
 */
module Options {
  import opened Wrappers
  import opened Sides

  /** The side field as the parser leaves it: the default Unknown when "-side" is absent, else the converted token. */
  function ParsedSide(sideToken: Option<string>): (s: Side)
    ensures sideToken.None? ==> s == Unknown
    ensures sideToken.Some? ==> s == Convert(sideToken.value)
  {
    match sideToken
    case None => Unknown
    case Some(token) => Convert(token)
  }

  /** The start-up policy: an unknown side becomes the client side, a known side is kept. */
  function Coerce(parsed: Side): (s: Side)
    ensures !s.IsUnknown()
    ensures !parsed.IsUnknown() ==> s == parsed
    ensures parsed.IsUnknown() ==> s.IsClient()
  {
    if parsed.IsUnknown() then Client else parsed
  }

  /** The side a StartOptions object holds once it is constructed. */
  function FinalSide(sideToken: Option<string>): (s: Side)
    ensures !s.IsUnknown()
    ensures s.IsServer() <==> sideToken.Some? && Convert(sideToken.value).IsServer()
  {
    Coerce(ParsedSide(sideToken))
  }

  /** The resolved side is Server exactly for a "-side" token that lower-cases to "server"; otherwise it is Client. */
  lemma FinalSideServerIff(sideToken: Option<string>)
    ensures FinalSide(sideToken) == Server <==> sideToken.Some? && LowerEquals(sideToken.value, "server")
    ensures FinalSide(sideToken) == Client <==> !(sideToken.Some? && LowerEquals(sideToken.value, "server"))
  {
  }

  /** The same statement phrased with lower-casing, as the converter does it. */
  lemma FinalSideServerIffLowered(sideToken: Option<string>)
    ensures FinalSide(sideToken) == Server <==> sideToken.Some? && ToLower(sideToken.value) == "server"
  {
    if sideToken.Some? {
      LowerMatchesLowerEquals(sideToken.value, "server");
    }
  }

  class StartOptions {
    /** The main (unnamed) parameters. */
    var parameters: seq<string>
    /** The side to start; never Unknown after construction. */
    var side: Side

    /** Parses the arguments, then replaces an unknown side by the client side. */
    constructor (mainParameters: seq<string>, sideToken: Option<string>)
      ensures parameters == mainParameters
      ensures side == FinalSide(sideToken)
      ensures !side.IsUnknown()
    {
      // field defaults, before the parser runs
      parameters := [];
      side := Unknown;
      // what the parser writes into `parameters` and `side`
      parameters := mainParameters;
      if sideToken.Some? {
        side := Convert(sideToken.value);
      }
      new;
      if side.IsUnknown() {
        side := Client;
      }
    }
  }
}
