/** The service settings that carry behaviour: the CORS origin list and the environment name. */
module Config {
  import Text

  /** The default of `CORS_ORIGINS`. */
  const DefaultCorsOrigins: string := "http://localhost:3000,http://localhost:8000"

  /**
   * `Settings.cors_origins_list`: the comma-separated pieces of `CORS_ORIGINS`,
   * each stripped of surrounding whitespace. There is one origin more than there
   * are commas; no origin holds a comma or starts or ends with whitespace; an
   * origin is empty exactly when its piece was all whitespace.
   */
  function CorsOriginsList(corsOrigins: string): (origins: seq<string>)
    ensures |origins| == Text.Occurrences(corsOrigins, ',') + 1
    ensures forall i :: 0 <= i < |origins| ==>
      && ',' !in origins[i]
      && (origins[i] == [] || (!Text.IsSpace(origins[i][0]) && !Text.IsSpace(origins[i][|origins[i]| - 1])))
      && (origins[i] == [] <==> Text.AllSpace(Text.Split(corsOrigins, ',')[i]))
  {
    var pieces := Text.Split(corsOrigins, ',');
    var origins := seq(|pieces|, i requires 0 <= i < |pieces| => Text.Strip(pieces[i]));
    forall i | 0 <= i < |origins|
      ensures ',' !in origins[i]
      ensures origins[i] == [] <==> Text.AllSpace(pieces[i])
    {
      var n := Text.LeadingSpaces(pieces[i]);
      forall k | 0 <= k < |origins[i]| ensures origins[i][k] != ',' {
        assert origins[i][k] == pieces[i][n + k];
      }
      Text.StripEmptyIffAllSpace(pieces[i]);
    }
    origins
  }

  /**
   * The origins follow the source string's order: for any comma-free pieces,
   * the list of the string they join to is those pieces, stripped, in order.
   */
  lemma CorsOriginsOrder(pieces: seq<string>)
    requires |pieces| >= 1
    requires forall i :: 0 <= i < |pieces| ==> ',' !in pieces[i]
    ensures var origins := CorsOriginsList(Text.Join(pieces, ','));
      |origins| == |pieces| && forall i :: 0 <= i < |pieces| ==> origins[i] == Text.Strip(pieces[i])
  {
    Text.SplitJoin(pieces, ',');
  }

  /** Two trimmed, comma-free origins joined by one comma parse back to themselves. */
  lemma TwoOrigins(a: string, b: string)
    requires ',' !in a && ',' !in b && a != [] && b != []
    requires !Text.IsSpace(a[0]) && !Text.IsSpace(a[|a| - 1])
    requires !Text.IsSpace(b[0]) && !Text.IsSpace(b[|b| - 1])
    ensures CorsOriginsList(a + [','] + b) == [a, b]
  {
    Text.SplitAfterPiece(a, b, ',');
    Text.SplitNoSep(b, ',');
    Text.StripUntouched(a);
    Text.StripUntouched(b);
  }

  /** The default setting yields the two local development origins. */
  lemma DefaultCorsOriginsList()
    ensures CorsOriginsList(DefaultCorsOrigins) == ["http://localhost:3000", "http://localhost:8000"]
  {
    var a, b := "http://localhost:3000", "http://localhost:8000";
    assert DefaultCorsOrigins == a + [','] + b;
    TwoOrigins(a, b);
  }
}
