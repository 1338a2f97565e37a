/**
 * The preview modal: which URL its frame shows, what its body displays, the
 * reload counter that re-mounts the frame, and the start it requests when it
 * is opened with no server.  The provider's state is `WebContainerProvider.Provider`.
 */
module PreviewModal {
  import opened Options
  import opened WebContainerProvider

  /** `iframeSrc`: empty while there is no (truthy) URL or a start is in progress. */
  function IframeSrc(previewUrl: Option<string>, serverIsStarting: bool): (r: string)
    ensures r == "" <==> !Truthy(previewUrl) || serverIsStarting
    ensures r != "" ==> previewUrl == Some(r)
  {
    if !Truthy(previewUrl) || serverIsStarting then "" else previewUrl.value
  }

  /** What the modal's body shows. */
  datatype Body = StartingMessage | NoPreviewMessage | Frame(key: nat, src: string)

  function BodyOf(serverIsStarting: bool, iframeSrc: string, iframeKey: nat): (b: Body)
    ensures serverIsStarting ==> b == StartingMessage
    ensures !serverIsStarting && iframeSrc == "" ==> b == NoPreviewMessage
    ensures !serverIsStarting && iframeSrc != "" ==> b == Frame(iframeKey, iframeSrc)
  {
    if serverIsStarting then StartingMessage
    else if iframeSrc == "" then NoPreviewMessage
    else Frame(iframeKey, iframeSrc)
  }

  /** The frame is shown exactly when a URL is known and no start is in progress, and shows that URL. */
  lemma FrameShowsUrl(previewUrl: Option<string>, serverIsStarting: bool, iframeKey: nat)
    ensures BodyOf(serverIsStarting, IframeSrc(previewUrl, serverIsStarting), iframeKey).Frame?
      <==> Truthy(previewUrl) && !serverIsStarting
    ensures BodyOf(serverIsStarting, IframeSrc(previewUrl, serverIsStarting), iframeKey).Frame? ==>
      Some(BodyOf(serverIsStarting, IframeSrc(previewUrl, serverIsStarting), iframeKey).src) == previewUrl
  {
  }

  /** The modal's condition for requesting a start on mount. */
  predicate StartOnMount(previewUrl: Option<string>, serverIsStarting: bool)
  {
    !Truthy(previewUrl) && !serverIsStarting
  }

  class Preview {
    const provider: Provider
    /** `iframeKey`: changing it re-mounts the frame. */
    var iframeKey: nat

    constructor (provider: Provider)
      ensures this.provider == provider && iframeKey == 0
    {
      this.provider := provider;
      iframeKey := 0;
    }

    function Src(): (r: string)
      reads this, provider
    {
      IframeSrc(provider.previewUrl, provider.serverIsStarting)
    }

    function View(): (b: Body)
      reads this, provider
    {
      BodyOf(provider.serverIsStarting, Src(), iframeKey)
    }

    /** `forceReload`: a new key, one more than the last. */
    method ForceReload()
      modifies this
      ensures iframeKey == old(iframeKey) + 1
    {
      iframeKey := iframeKey + 1;
    }

    /**
     * The mount effect: with no URL and no start in progress it asks the
     * provider to start the preview server; otherwise it does nothing.
     */
    method OnMount(spawnOk: bool) returns (requested: bool)
      requires provider.Valid()
      modifies provider, provider.rt
      ensures provider.Valid()
      ensures requested == StartOnMount(old(provider.previewUrl), old(provider.serverIsStarting))
      ensures iframeKey == old(iframeKey)
      ensures provider.webContainerInstance == old(provider.webContainerInstance)
      ensures provider.previewUrl == old(provider.previewUrl)
      ensures provider.containerBooting == old(provider.containerBooting)
      ensures provider.installingDeps == old(provider.installingDeps)
      ensures provider.autoStarted == old(provider.autoStarted)
      ensures provider.rt.globalWebContainer == old(provider.rt.globalWebContainer)
      ensures provider.rt.installedDependencies == old(provider.rt.installedDependencies)
      ensures !requested || provider.webContainerInstance.None? ==>
        && provider.serverIsStarting == old(provider.serverIsStarting)
        && provider.unsubscribes == old(provider.unsubscribes)
        && provider.rt.listeners == old(provider.rt.listeners)
        && provider.rt.nextListenerId == old(provider.rt.nextListenerId)
        && provider.rt.calls == old(provider.rt.calls)
      ensures requested && provider.webContainerInstance.Some? ==>
        var wc, n := provider.webContainerInstance.value, old(provider.rt.nextListenerId);
        && provider.serverIsStarting == spawnOk
        && provider.unsubscribes == old(provider.unsubscribes) + [n, n + 1]
        && provider.rt.listeners == old(provider.rt.listeners) + [Listener(n, wc, ServerReady), Listener(n + 1, wc, Port)]
        && provider.rt.nextListenerId == n + 2
        && provider.rt.calls == old(provider.rt.calls) + [SpawnCall(wc, NpmRunDev)]
    {
      requested := StartOnMount(provider.previewUrl, provider.serverIsStarting);
      if requested {
        provider.StartPreviewServer(spawnOk);
      }
    }
  }

  /** With a consistent provider a known URL is always what the frame shows. */
  lemma KnownUrlIsShown(p: Provider, key: nat)
    requires p.Valid() && Truthy(p.previewUrl)
    ensures BodyOf(p.serverIsStarting, IframeSrc(p.previewUrl, p.serverIsStarting), key)
      == Frame(key, p.previewUrl.value)
  {
  }
}
