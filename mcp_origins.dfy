/**
 * The origin allow-list of both MCP endpoints (a guard against DNS rebinding): the
 * list parsed from `MCP_ALLOWED_ORIGINS` and the two backends' checks of a request's
 * `Origin` header against it.
 */
module McpOrigins {
  import opened Wrappers
  import opened Text

  /** The comprehension `[o.strip() for o in parts if o.strip()]`. */
  function CleanOrigins(parts: seq<string>): (r: seq<string>)
    ensures |r| <= |parts|
  {
    if parts == [] then []
    else
      var o := Strip(parts[0]);
      (if o != "" then [o] else []) + CleanOrigins(parts[1..])
  }

  /** `ALLOWED_ORIGINS` from the setting (default "*"). */
  function AllowedOrigins(setting: Option<string>): seq<string>
  {
    var v := setting.GetOr("*");
    if v == "*" then ["*"] else CleanOrigins(SplitOn(v, ','))
  }

  /** An entry an operator would write: non-empty, no surrounding whitespace, no comma. */
  predicate CleanOrigin(o: string)
  {
    o != "" && Strip(o) == o && ',' !in o
  }

  /** Every parsed entry is non-empty and trimmed, and each comes from one of the
      comma-separated parts. */
  lemma {:induction false} CleanOriginsMembers(parts: seq<string>, o: string)
    ensures o in CleanOrigins(parts) <==> o != "" && exists p :: p in parts && Strip(p) == o
  {
    if parts != [] {
      CleanOriginsMembers(parts[1..], o);
      assert forall p :: p in parts <==> p == parts[0] || p in parts[1..];
    }
  }

  lemma {:induction false} CleanOriginsKeepClean(parts: seq<string>)
    requires forall k :: 0 <= k < |parts| ==> CleanOrigin(parts[k])
    ensures CleanOrigins(parts) == parts
  {
    if parts != [] {
      CleanOriginsKeepClean(parts[1..]);
      assert [parts[0]] + parts[1..] == parts;
    }
  }

  /** Writing a list of clean origins comma-separated and parsing it gives the list
      back, unless the list is the single wildcard (which parses to itself anyway). */
  lemma AllowedOriginsRoundTrip(origins: seq<string>)
    requires origins != [] && forall k :: 0 <= k < |origins| ==> CleanOrigin(origins[k])
    ensures AllowedOrigins(Some(Join(origins, ","))) == origins
  {
    var v := Join(origins, ",");
    if |origins| > 1 {
      JoinHasComma(origins);
    }
    if v != "*" {
      SplitJoin(origins, ',');
      assert "," == [','];
      CleanOriginsKeepClean(origins);
    }
  }

  lemma JoinHasComma(origins: seq<string>)
    requires |origins| > 1
    ensures ',' in Join(origins, ",")
  {
    var v := Join(origins, ",");
    assert v == origins[0] + "," + Join(origins[1..], ",");
    assert v[|origins[0]|] == ',';
  }

  /** Every parsed entry is clean, whatever the setting. */
  lemma AllowedOriginsClean(setting: Option<string>, k: nat)
    requires k < |AllowedOrigins(setting)|
    ensures AllowedOrigins(setting)[k] != "" && Strip(AllowedOrigins(setting)[k]) == AllowedOrigins(setting)[k]
  {
    var v := setting.GetOr("*");
    if v != "*" {
      var o := AllowedOrigins(setting)[k];
      CleanOriginsMembers(SplitOn(v, ','), o);
      var p :| p in SplitOn(v, ',') && Strip(p) == o;
      StripIdempotent(p);
    }
  }

  /** The second backend's `_validate_origin`: a wildcard entry admits every request,
      a missing origin is rejected otherwise, and any other origin must be listed. */
  function ValidateOrigin(origin: Option<string>, allowed: seq<string>): (r: bool)
    ensures r <==> "*" in allowed || (origin.Some? && origin.value in allowed)
  {
    if "*" in allowed then true
    else if origin.None? then false
    else origin.value in allowed
  }

  /** The first backend's `_validate_origin`: no wildcard handling. */
  function ValidateOriginStrict(origin: Option<string>, allowed: seq<string>): (r: bool)
    ensures r <==> origin.Some? && origin.value in allowed
  {
    if origin.None? then false else origin.value in allowed
  }

  /** The first backend's endpoint skips the check only for exactly `["*"]`. */
  predicate StrictGate(origin: Option<string>, allowed: seq<string>)
  {
    allowed == ["*"] || ValidateOriginStrict(origin, allowed)
  }

  /** The two backends admit the same requests unless the list mixes the wildcard
      with other entries. */
  lemma GatesAgree(origin: Option<string>, allowed: seq<string>)
    requires "*" !in allowed || allowed == ["*"]
    ensures StrictGate(origin, allowed) == ValidateOrigin(origin, allowed)
  {
  }

  /** With "*,<site>" the second backend admits a request without an origin, while
      the first backend rejects it. */
  lemma GatesDifferOnMixedWildcard(site: string)
    requires CleanOrigin(site)
    ensures var allowed := AllowedOrigins(Some("*," + site));
      allowed == ["*", site] && ValidateOrigin(None, allowed) && !StrictGate(None, allowed)
  {
    MixedWildcardParsed(site);
  }

  lemma MixedWildcardParsed(site: string)
    requires CleanOrigin(site)
    ensures AllowedOrigins(Some("*," + site)) == ["*", site]
  {
    WildcardClean();
    var origins := ["*", site];
    assert Join(origins, ",") == "*," + site;
    AllowedOriginsRoundTrip(origins);
  }

  lemma WildcardClean()
    ensures CleanOrigin("*")
  {
    assert TrimStart("*") == "*";
  }
}
