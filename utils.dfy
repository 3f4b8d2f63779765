/** `src/lib/utils.ts`: the API base URL and image-URL resolution. */
module Utils {
  import opened Common

  /** The fallback used when `NEXT_PUBLIC_API_URL` is unset or empty. */
  const DefaultApiUrl: string := "http://localhost:5055"

  /** The image shown when a record has no image path. */
  const Placeholder: string := "https://placehold.co/150"

  predicate StartsWith(s: string, prefix: string)
  {
    |prefix| <= |s| && s[..|prefix|] == prefix
  }

  /** A path the browser can load as it is. */
  predicate IsAbsolute(path: string)
  {
    StartsWith(path, "http://") || StartsWith(path, "https://")
  }

  /** `process.env.NEXT_PUBLIC_API_URL || 'http://localhost:5055'`: an unset
      or empty variable falls back to the default. The environment is an
      input of the model. */
  function ApiUrl(env: Option<string>): (r: string)
    ensures r != []
    ensures env.Some? && env.value != [] ==> r == env.value
    ensures env == None || env == Some([]) ==> IsAbsolute(r)
  {
    if env.Some? && env.value != [] then env.value else DefaultApiUrl
  }

  /** `resolveImageUrl(path)`: null, undefined and the empty string (all
      falsy) give the placeholder; absolute URLs pass through; anything else
      is taken relative to the API base URL. */
  function ResolveImageUrl(apiUrl: string, path: Option<string>): (r: string)
    ensures r != []
    ensures path == None || path == Some([]) ==> r == Placeholder
    ensures path.Some? && path.value != [] ==>
      |path.value| <= |r| && r[|r| - |path.value|..] == path.value
    ensures path.Some? && path.value != [] && !IsAbsolute(path.value) ==>
      StartsWith(r, apiUrl) && |r| == |apiUrl| + |path.value|
    ensures path.Some? && IsAbsolute(path.value) ==> r == path.value
  {
    if path.None? || path.value == [] then Placeholder
    else if IsAbsolute(path.value) then path.value
    else apiUrl + path.value
  }

  /** A prefix of `s` stays a prefix when something is appended. */
  lemma StartsWithAppend(s: string, t: string, prefix: string)
    requires StartsWith(s, prefix)
    ensures StartsWith(s + t, prefix)
  {
    assert (s + t)[..|prefix|] == s[..|prefix|];
  }

  /** With an absolute base URL (the default one is), every result is
      absolute, so resolving a resolved URL changes nothing. */
  lemma ResolveIdempotent(apiUrl: string, path: Option<string>)
    requires IsAbsolute(apiUrl)
    ensures IsAbsolute(ResolveImageUrl(apiUrl, path))
    ensures ResolveImageUrl(apiUrl, Some(ResolveImageUrl(apiUrl, path))) == ResolveImageUrl(apiUrl, path)
  {
    var r := ResolveImageUrl(apiUrl, path);
    if path.None? || path.value == [] {
      assert StartsWith(Placeholder, "https://");
    } else if !IsAbsolute(path.value) {
      if StartsWith(apiUrl, "http://") {
        StartsWithAppend(apiUrl, path.value, "http://");
      } else {
        StartsWithAppend(apiUrl, path.value, "https://");
      }
    }
  }
}
