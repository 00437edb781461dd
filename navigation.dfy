/** The URL check and protocol defaulting of the `playwright_navigate` tool (`GotoTool`). */
module Navigation {
  import opened Common
  import opened Strings
  import opened ToolTypes

  /** A URL that does not already start with `http` gets `https://` in front. */
  function NormalizeUrl(url: string): (finalUrl: string)
    ensures StartsWith(finalUrl, "http")
    ensures StartsWith(url, "http") ==> finalUrl == url
    ensures !StartsWith(url, "http") ==> finalUrl == "https://" + url
  {
    if StartsWith(url, "http") then url else "https://" + url
  }

  /** Normalising an already normalised URL changes nothing. */
  lemma NormalizeIdempotent(url: string)
    ensures NormalizeUrl(NormalizeUrl(url)) == NormalizeUrl(url)
  {
  }

  /** The result of the tool, with the address handed to the page when it navigates at all. */
  datatype GotoResult = GotoResult(response: ToolResponse, navigatedTo: Option<string>)

  /**
   * The tool on its `url` argument, assuming the page call succeeds: a missing or empty
   * URL is refused before any navigation; otherwise the page goes to the normalised URL.
   */
  function Goto(url: Option<string>): (r: GotoResult)
    ensures (url.None? || url.value == "") <==> r.navigatedTo.None?
    ensures r.navigatedTo.None? ==> r.response == CreateErrorResponse("URL is required")
    ensures r.navigatedTo.Some? ==>
              r.navigatedTo.value == NormalizeUrl(url.value) &&
              r.response == CreateSuccessResponse(Single("Navigated to: " + r.navigatedTo.value))
  {
    if url.None? || url.value == "" then GotoResult(CreateErrorResponse("URL is required"), None)
    else
      var finalUrl := NormalizeUrl(url.value);
      GotoResult(CreateSuccessResponse(Single("Navigated to: " + finalUrl)), Some(finalUrl))
  }

  /** Whatever address the tool navigates to already starts with `http`, and it is reported back in the message. */
  lemma GotoTargetIsNormal(url: Option<string>)
    ensures Goto(url).navigatedTo.Some? ==>
              StartsWith(Goto(url).navigatedTo.value, "http") &&
              !Goto(url).response.isError &&
              Texts(Goto(url).response.content) == ["Navigated to: " + Goto(url).navigatedTo.value]
    ensures Goto(url).navigatedTo.None? ==> Goto(url).response.isError
  {
  }
}
