/**
 * The request-level decisions `app.js` makes itself: the CORS origin
 * whitelist read from `CORS_ORIGIN`, the origin check handed to `cors`, and
 * the catch-all handler for routes nothing else matched. The other
 * middlewares it mounts are library code and are not part of this model.
 */
module App {
  import opened Wrappers
  import opened JsStrings
  import opened ApiErrors

  /** `.map((s) => s.trim())`. */
  function TrimAll(pieces: seq<string>): (r: seq<string>)
    ensures |r| == |pieces|
    ensures forall i :: 0 <= i < |pieces| ==> r[i] == Trim(pieces[i])
  {
    if pieces == [] then [] else [Trim(pieces[0])] + TrimAll(pieces[1..])
  }

  /** `.filter(Boolean)` on strings: the non-empty ones, in order. */
  function NonEmpty(xs: seq<string>): (r: seq<string>)
    ensures |r| <= |xs|
    ensures forall x :: x in r <==> x in xs && x != ""
  {
    if xs == [] then [] else (if xs[0] == "" then [] else [xs[0]]) + NonEmpty(xs[1..])
  }

  /** `allowedOrigins`: `(CORS_ORIGIN || '').split(',')`, each piece trimmed, empty entries dropped. */
  function AllowedOrigins(corsOrigin: Option<string>): (r: seq<string>)
    ensures forall x :: x in r ==> x != "" && ',' !in x && Trim(x) == x
  {
    var pieces := Split(corsOrigin.GetOr(""), ',');
    var r := NonEmpty(TrimAll(pieces));
    assert forall x :: x in r ==> ',' !in x && Trim(x) == x by {
      forall x | x in r
        ensures ',' !in x && Trim(x) == x
      {
        var j :| 0 <= j < |pieces| && TrimAll(pieces)[j] == x;
        TrimInside(pieces[j], ',');
        TrimIdempotent(pieces[j]);
      }
    }
    r
  }

  /** Trimming takes out characters and puts none in. */
  lemma TrimInside(s: string, c: char)
    requires c !in s
    ensures c !in Trim(s)
  {
    var a := SpaceEnd(s, 0);
    var t := Trim(s);
    forall i | 0 <= i < |t|
      ensures t[i] != c
    {
      assert t[i] == s[a + i];
    }
  }

  /** An unset or empty `CORS_ORIGIN` gives the empty whitelist, which lets every origin through. */
  lemma NoWhitelistWhenUnset(corsOrigin: Option<string>)
    requires corsOrigin.None? || corsOrigin == Some("")
    ensures AllowedOrigins(corsOrigin) == []
  {
    assert Split("", ',') == [""];
    assert Trim("") == "";
  }

  /**
   * A whitelist written out the way it is read, trimmed non-empty origins
   * joined by commas, with blanks around them if need be, reads back as the
   * same list.
   */
  lemma {:induction false} AllowedOriginsRoundTrip(origins: seq<string>, padded: seq<string>)
    requires |origins| >= 1 && |padded| == |origins|
    requires forall i :: 0 <= i < |origins| ==> origins[i] != "" && ',' !in padded[i] && Trim(padded[i]) == origins[i]
    ensures AllowedOrigins(Some(Join(padded, ','))) == origins
  {
    SplitJoin(padded, ',');
    assert TrimAll(padded) == origins;
    NonEmptyOfNonEmpty(origins);
  }

  /** Nothing is dropped from a list without empty strings. */
  lemma {:induction false} NonEmptyOfNonEmpty(xs: seq<string>)
    requires forall i :: 0 <= i < |xs| ==> xs[i] != ""
    ensures NonEmpty(xs) == xs
  {
    if xs != [] {
      NonEmptyOfNonEmpty(xs[1..]);
    }
  }

  /** The outcome of the `origin` callback: `callback(null, true)` or `callback(error)`. */
  datatype CorsDecision = Allow | Deny(error: ApiError)

  /** The `origin` function passed to `cors`; a request without an `Origin` header has `None`. */
  function CheckOrigin(allowedOrigins: seq<string>, origin: Option<string>): (d: CorsDecision)
    ensures d.Deny? ==> d.error == ApiError("Not allowed by CORS", 403)
  {
    if origin.None? || origin.value == "" || |allowedOrigins| == 0 || "*" in allowedOrigins || origin.value in allowedOrigins
    then Allow
    else Deny(ApiError("Not allowed by CORS", 403))
  }

  /**
   * An origin is refused exactly when it is present and non-empty, the
   * whitelist is not empty and has no `*`, and no entry equals the origin
   * character for character.
   */
  lemma DeniedExactly(allowedOrigins: seq<string>, origin: Option<string>)
    ensures CheckOrigin(allowedOrigins, origin).Deny? <==>
            && origin.Some? && origin.value != ""
            && allowedOrigins != []
            && (forall i :: 0 <= i < |allowedOrigins| ==> allowedOrigins[i] != "*" && allowedOrigins[i] != origin.value)
  {
  }

  /**
   * Every origin read from `CORS_ORIGIN` is let through as it stands.
   */
  lemma ConfiguredOriginsAllowed(corsOrigin: string, origin: string)
    requires origin in AllowedOrigins(Some(corsOrigin))
    ensures CheckOrigin(AllowedOrigins(Some(corsOrigin)), Some(origin)) == Allow
  {
  }

  /**
   * Each comma-separated piece of `CORS_ORIGIN` that is not blank admits
   * the origin it spells once its surrounding blanks are trimmed.
   */
  lemma PaddedOriginsAllowed(corsOrigin: string, i: nat)
    requires i < |Split(corsOrigin, ',')| && Trim(Split(corsOrigin, ',')[i]) != ""
    ensures CheckOrigin(AllowedOrigins(Some(corsOrigin)), Some(Trim(Split(corsOrigin, ',')[i]))) == Allow
  {
    var pieces := Split(corsOrigin, ',');
    assert TrimAll(pieces)[i] in TrimAll(pieces);
  }

  /** The catch-all route: `next` with a 404 naming the requested URL. */
  function RouteNotFound(originalUrl: string): (e: ApiError)
    ensures e.statusCode == 404
    ensures EndsWith(e.message, originalUrl) && StartsWith(e.message, "Could not Find the Route ")
  {
    var prefix := "Could not Find the Route ";
    var m := prefix + originalUrl;
    assert m[..|prefix|] == prefix;
    assert m[|m| - |originalUrl|..] == originalUrl;
    ApiError(m, 404)
  }

  /** Different URLs give different messages: the URL can be read back from the error. */
  lemma RouteNotFoundNamesUrl(url1: string, url2: string)
    requires RouteNotFound(url1) == RouteNotFound(url2)
    ensures url1 == url2
  {
    var n := |"Could not Find the Route "|;
    assert url1 == RouteNotFound(url1).message[n..];
    assert url2 == RouteNotFound(url2).message[n..];
  }
}
