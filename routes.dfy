/** Properties shared by the protected routes. */
module Routes {
  import opened Wrappers
  import opened Js
  import opened Mail
  import Story
  import Audio

  /** Without a caller, `/test`, `/story` and `/audio` all answer 403 with the
      fixed permission message before looking at the request body, and none
      of them calls the provider. */
  lemma AnonymousCallersAreRefused(
    body: Option<Json>, form: Audio.Form, store: Audio.FileStore, provider: Provider)
    ensures HandleTest(None) == Reply(403, ErrorBody("You don't have permission to access this."))
    ensures Story.StoryExchange(None, body, provider) ==
      Exchange(None, Reply(403, ErrorBody("You don't have permission to access this.")))
    ensures Audio.AudioExchange(None, form, store, provider) ==
      Exchange(None, Reply(403, ErrorBody("You don't have permission to access this.")))
  {
  }
}
