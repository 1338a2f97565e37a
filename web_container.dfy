/**
 * The WebContainer orchestrator of `WebContainerProvider`: boot or reuse of the
 * single sandbox, the once-per-process `npm install`, the preview server start
 * with its two event subscriptions, the one-shot auto-start, reboot and unmount.
 *
 * The sandbox itself (`WebContainer.boot`, `mount`, `spawn`, `fs.writeFile`,
 * `on`) is not modelled: what it answers is passed in as parameters, and what
 * it is asked to do is recorded, in order, in the log `Runtime.calls`.
 * React state setters are immediate field updates in one sequential thread.
 */
module WebContainerProvider {
  import opened Options
  import opened Lists

  /** Identity of a booted sandbox (a `WebContainer` object). */
  type ContainerId = nat

  datatype EventName = ServerReady | Port

  /** A handler registered with `container.on(event, ...)`; its unsubscribe closure removes exactly this `id`. */
  datatype Listener = Listener(id: nat, container: ContainerId, event: EventName)

  datatype Command = Command(cmd: string, args: seq<string>)

  const NpmInstall := Command("npm", ["install"])
  const NpmRunDev := Command("npm", ["run", "dev"])
  /** Only a `port` event for this port (with status "open") is adopted. */
  const DevServerPort := 3000

  /** What the provider asks of the sandbox. */
  datatype SandboxCall =
    | BootCall
    | MountCall(wc: ContainerId)
    | SpawnCall(wc: ContainerId, command: Command)
    | WriteFileCall(wc: ContainerId, path: string, content: string)

  /** How `runCommandInContainer(wc, "npm", ["install"])` ends: it throws, or the process exits with a code. */
  datatype InstallOutcome = InstallThrew | InstallExited(exitCode: int)

  datatype RunError = NotReady | SpawnFailed

  /** `runCommand`'s result: the spawned process with its output collection, or the error it throws. */
  datatype RunResult = Started(wc: ContainerId, output: seq<string>) | Failed(error: RunError)

  /** JavaScript truthiness of `previewUrl`: `null` and the empty string are falsy. */
  predicate Truthy(url: Option<string>)
  {
    url.Some? && url.value != ""
  }

  /** Number of `npm install` processes spawned in a call log. */
  function Installs(calls: seq<SandboxCall>): (n: nat)
    ensures n <= |calls|
  {
    if calls == [] then 0
    else Installs(calls[..|calls| - 1]) + (if calls[|calls| - 1].SpawnCall? && calls[|calls| - 1].command == NpmInstall then 1 else 0)
  }

  /** Number of sandbox boots in a call log. */
  function Boots(calls: seq<SandboxCall>): (n: nat)
    ensures n <= |calls|
  {
    if calls == [] then 0
    else Boots(calls[..|calls| - 1]) + (if calls[|calls| - 1] == BootCall then 1 else 0)
  }

  lemma {:induction false} InstallsAppend(a: seq<SandboxCall>, b: seq<SandboxCall>)
    ensures Installs(a + b) == Installs(a) + Installs(b)
    decreases |b|
  {
    if b == [] {
      assert a + b == a;
    } else {
      assert (a + b)[..|a + b| - 1] == a + b[..|b| - 1];
      InstallsAppend(a, b[..|b| - 1]);
    }
  }

  lemma {:induction false} BootsAppend(a: seq<SandboxCall>, b: seq<SandboxCall>)
    ensures Boots(a + b) == Boots(a) + Boots(b)
    decreases |b|
  {
    if b == [] {
      assert a + b == a;
    } else {
      assert (a + b)[..|a + b| - 1] == a + b[..|b| - 1];
      BootsAppend(a, b[..|b| - 1]);
    }
  }

  /**
   * The calls of a fresh boot (no global container): boot, then mount, then
   * `npm install` only while dependencies are not yet installed. A boot that
   * throws stops after `BootCall`, a mount that throws after `MountCall`.
   */
  function FreshBootCalls(bootResult: Option<ContainerId>, mountOk: bool, installed: bool): (calls: seq<SandboxCall>)
    ensures |calls| >= 1 && calls[0] == BootCall && Boots(calls) == 1
    ensures Installs(calls) == (if bootResult.Some? && mountOk && !installed then 1 else 0)
    ensures bootResult.Some? ==> |calls| >= 2 && calls[1] == MountCall(bootResult.value)
    ensures Installs(calls) == 1 ==> |calls| == 3 && calls[2] == SpawnCall(bootResult.value, NpmInstall)
  {
    match bootResult
    case None => [BootCall]
    case Some(wc) =>
      var upToMount := [BootCall, MountCall(wc)];
      assert upToMount[..1] == [BootCall];
      if mountOk && !installed then
        var all := upToMount + [SpawnCall(wc, NpmInstall)];
        assert all[..2] == upToMount;
        all
      else upToMount
  }

  /** Whether a fresh boot publishes its container: boot and mount succeed and, if it ran, the install does not throw. */
  predicate FreshBootSucceeds(bootResult: Option<ContainerId>, mountOk: bool, installed: bool, install: InstallOutcome)
  {
    bootResult.Some? && mountOk && (installed || install.InstallExited?)
  }

  /** The listeners of `ls` that are handlers of this session for `event` on container `wc`. */
  function Handlers(ls: seq<Listener>, mine: seq<nat>, wc: ContainerId, event: EventName): seq<Listener>
  {
    Filter(ls, (l: Listener) => l.id in mine && l.container == wc && l.event == event)
  }

  /** `ls` once those handlers have each unsubscribed themselves. */
  function WithoutHandlers(ls: seq<Listener>, mine: seq<nat>, wc: ContainerId, event: EventName): seq<Listener>
  {
    Filter(ls, (l: Listener) => !(l.id in mine && l.container == wc && l.event == event))
  }

  /** `ls` after the unsubscribe closures for `ids` have run. */
  function Released(ls: seq<Listener>, ids: seq<nat>): seq<Listener>
  {
    Filter(ls, (l: Listener) => l.id !in ids)
  }

  /** Running the unsubscribes for `a` and then for `b` is running them for `a + b`. */
  lemma {:induction false} ReleasedTwice(ls: seq<Listener>, a: seq<nat>, b: seq<nat>)
    ensures Released(Released(ls, a), b) == Released(ls, a + b)
  {
    if ls != [] {
      ReleasedTwice(ls[1..], a, b);
    }
  }

  /** Running an unsubscribe a second time releases nothing more. */
  lemma {:induction false} ReleasedAgain(ls: seq<Listener>, ids: seq<nat>)
    ensures Released(Released(ls, ids), ids) == Released(ls, ids)
  {
    if ls != [] {
      ReleasedAgain(ls[1..], ids);
    }
  }

  lemma {:induction false} ReleasedNothing(ls: seq<Listener>)
    ensures Released(ls, []) == ls
  {
    if ls != [] {
      ReleasedNothing(ls[1..]);
    }
  }

  /**
   * The process-wide state: the module globals `globalWebContainer` and
   * `installedDependencies`, and the handlers currently registered with the
   * sandbox's event emitter. It outlives every provider (UI session).
   */
  class Runtime {
    var globalWebContainer: Option<ContainerId>
    var installedDependencies: bool
    var listeners: seq<Listener>
    var nextListenerId: nat
    var calls: seq<SandboxCall>

    ghost predicate Valid()
      reads this
    {
      forall i :: 0 <= i < |listeners| ==> listeners[i].id < nextListenerId
    }

    constructor ()
      ensures Valid()
      ensures globalWebContainer == None && !installedDependencies
      ensures listeners == [] && nextListenerId == 0 && calls == []
    {
      globalWebContainer := None;
      installedDependencies := false;
      listeners := [];
      nextListenerId := 0;
      calls := [];
    }

    /** `wc.on(event, handler)`: registers a handler and returns the id its unsubscribe closure removes. */
    method Subscribe(wc: ContainerId, event: EventName) returns (id: nat)
      requires Valid()
      modifies this`listeners, this`nextListenerId
      ensures Valid()
      ensures id == old(nextListenerId) && nextListenerId == id + 1
      ensures listeners == old(listeners) + [Listener(id, wc, event)]
    {
      id := nextListenerId;
      listeners := listeners + [Listener(id, wc, event)];
      nextListenerId := nextListenerId + 1;
    }

    /** Calling the unsubscribe closure returned for `id`; calling it again changes nothing. */
    method Unsubscribe(id: nat)
      requires Valid()
      modifies this`listeners
      ensures Valid()
      ensures listeners == Released(old(listeners), [id])
      ensures Released(listeners, [id]) == listeners
    {
      ReleasedAgain(listeners, [id]);
      listeners := Released(listeners, [id]);
    }
  }

  /** Collects every output chunk, in arrival order, as the `WritableStream` sink of `runCommand` does. */
  method CollectOutput(chunks: seq<string>) returns (output: seq<string>)
    ensures |output| == |chunks|
    ensures forall i :: 0 <= i < |chunks| ==> output[i] == chunks[i]
  {
    output := [];
    var i := 0;
    while i < |chunks|
      invariant 0 <= i <= |chunks|
      invariant output == chunks[..i]
    {
      output := output + [chunks[i]];
      i := i + 1;
    }
  }

  /** One mounted `WebContainerProvider`: its React state and its two refs. */
  class Provider {
    const rt: Runtime
    var webContainerInstance: Option<ContainerId>
    var previewUrl: Option<string>
    var serverIsStarting: bool
    var containerBooting: bool
    var installingDeps: bool
    /** `unsubscribesRef.current`, as the listener ids its closures remove. */
    var unsubscribes: seq<nat>
    /** `autoStartedRef.current` */
    var autoStarted: bool

    /** A known preview URL means no start is in progress; a booting session has no instance. */
    ghost predicate Valid()
      reads this, rt
    {
      && rt.Valid()
      && (Truthy(previewUrl) ==> !serverIsStarting)
      && (containerBooting ==> webContainerInstance.None?)
    }

    /** The condition of the auto-start effect. */
    predicate AutoStartDue()
      reads this
    {
      webContainerInstance.Some? && !Truthy(previewUrl) && !serverIsStarting && !autoStarted
    }

    /** The initial state of a freshly mounted provider (before its mount effect boots). */
    constructor (rt: Runtime)
      requires rt.Valid()
      ensures Valid() && this.rt == rt
      ensures webContainerInstance == None && previewUrl == None
      ensures !serverIsStarting && containerBooting && !installingDeps
      ensures unsubscribes == [] && !autoStarted
    {
      this.rt := rt;
      webContainerInstance := None;
      previewUrl := None;
      serverIsStarting := false;
      containerBooting := true;
      installingDeps := false;
      unsubscribes := [];
      autoStarted := false;
    }

    /**
     * `bootWebContainer`. A global container is adopted with no boot, mount or
     * install. Otherwise the sandbox is booted (`bootResult`, `None` when it
     * throws), mounted (`mountOk`) and, while dependencies are not installed,
     * `npm install` runs (`install`); only then is the container published.
     * The install flag is set whatever the exit code; an install that throws
     * leaves `installingDeps` set. `containerBooting` always ends false.
     */
    method Boot(bootResult: Option<ContainerId>, mountOk: bool, install: InstallOutcome)
      requires Valid()
      modifies this, rt
      ensures Valid()
      ensures !containerBooting
      ensures previewUrl == old(previewUrl) && serverIsStarting == old(serverIsStarting)
      ensures unsubscribes == old(unsubscribes) && autoStarted == old(autoStarted)
      ensures rt.listeners == old(rt.listeners) && rt.nextListenerId == old(rt.nextListenerId)
      ensures old(rt.installedDependencies) ==> rt.installedDependencies
      ensures old(rt.globalWebContainer).Some? ==>
        && webContainerInstance == old(rt.globalWebContainer)
        && rt.globalWebContainer == old(rt.globalWebContainer)
        && rt.installedDependencies == old(rt.installedDependencies)
        && installingDeps == old(installingDeps)
        && rt.calls == old(rt.calls)
      ensures old(rt.globalWebContainer).None? ==>
        && rt.calls == old(rt.calls) + FreshBootCalls(bootResult, mountOk, old(rt.installedDependencies))
        && rt.installedDependencies == (old(rt.installedDependencies) || (bootResult.Some? && mountOk && install.InstallExited?))
        && installingDeps == (if bootResult.Some? && mountOk && !old(rt.installedDependencies) then install.InstallThrew? else old(installingDeps))
        && (if FreshBootSucceeds(bootResult, mountOk, old(rt.installedDependencies), install)
            then rt.globalWebContainer == bootResult && webContainerInstance == bootResult
            else rt.globalWebContainer == None && webContainerInstance == old(webContainerInstance))
    {
      containerBooting := true;
      if rt.globalWebContainer.Some? {
        webContainerInstance := rt.globalWebContainer;
        containerBooting := false;
        return;
      }
      rt.calls := rt.calls + [BootCall];
      if bootResult.None? {
        containerBooting := false;
        return;
      }
      var wc := bootResult.value;
      rt.calls := rt.calls + [MountCall(wc)];
      if !mountOk {
        containerBooting := false;
        return;
      }
      if !rt.installedDependencies {
        installingDeps := true;
        rt.calls := rt.calls + [SpawnCall(wc, NpmInstall)];
        if install.InstallThrew? {
          containerBooting := false;
          return;
        }
        rt.installedDependencies := true;
        installingDeps := false;
      }
      rt.globalWebContainer := Some(wc);
      webContainerInstance := Some(wc);
      containerBooting := false;
    }

    /**
     * `rebootWebContainer`: forget the global container, the instance and the
     * preview URL, re-arm the auto-start, and boot again. The install flag,
     * `serverIsStarting` and the subscriptions are left as they are.
     */
    method Reboot(bootResult: Option<ContainerId>, mountOk: bool, install: InstallOutcome)
      requires Valid()
      modifies this, rt
      ensures Valid()
      ensures !containerBooting && previewUrl == None && !autoStarted
      ensures serverIsStarting == old(serverIsStarting) && unsubscribes == old(unsubscribes)
      ensures rt.listeners == old(rt.listeners) && rt.nextListenerId == old(rt.nextListenerId)
      ensures rt.calls == old(rt.calls) + FreshBootCalls(bootResult, mountOk, old(rt.installedDependencies))
      ensures rt.installedDependencies == (old(rt.installedDependencies) || (bootResult.Some? && mountOk && install.InstallExited?))
      ensures installingDeps == (if bootResult.Some? && mountOk && !old(rt.installedDependencies) then install.InstallThrew? else old(installingDeps))
      ensures if FreshBootSucceeds(bootResult, mountOk, old(rt.installedDependencies), install)
              then rt.globalWebContainer == bootResult && webContainerInstance == bootResult
              else rt.globalWebContainer == None && webContainerInstance == None
      ensures AutoStartDue() <==> FreshBootSucceeds(bootResult, mountOk, old(rt.installedDependencies), install) && !old(serverIsStarting)
    {
      rt.globalWebContainer := None;
      webContainerInstance := None;
      previewUrl := None;
      autoStarted := false;
      Boot(bootResult, mountOk, install);
    }

    /** `writeFile`: without an instance it only logs; otherwise the write is issued (a failing write is only logged). */
    method WriteFile(path: string, content: string)
      modifies rt`calls
      ensures webContainerInstance.None? ==> rt.calls == old(rt.calls)
      ensures webContainerInstance.Some? ==>
        rt.calls == old(rt.calls) + [WriteFileCall(webContainerInstance.value, path, content)]
    {
      if webContainerInstance.None? {
        return;
      }
      rt.calls := rt.calls + [WriteFileCall(webContainerInstance.value, path, content)];
    }

    /**
     * `runCommand`: throws "not ready" without an instance; otherwise spawns
     * the command (`spawnOk` false when the spawn rejects) and returns its
     * output collection, filled with `chunks` in arrival order.
     */
    method RunCommand(command: Command, spawnOk: bool, chunks: seq<string>) returns (r: RunResult)
      modifies rt`calls
      ensures webContainerInstance.None? ==> r == Failed(NotReady) && rt.calls == old(rt.calls)
      ensures webContainerInstance.Some? ==>
        && rt.calls == old(rt.calls) + [SpawnCall(webContainerInstance.value, command)]
        && r == (if spawnOk then Started(webContainerInstance.value, chunks) else Failed(SpawnFailed))
    {
      if webContainerInstance.None? {
        return Failed(NotReady);
      }
      var wc := webContainerInstance.value;
      rt.calls := rt.calls + [SpawnCall(wc, command)];
      if !spawnOk {
        return Failed(SpawnFailed);
      }
      var output := CollectOutput(chunks);
      r := Started(wc, output);
    }

    /**
     * `startPreviewServer`: a no-op without an instance, with a URL already
     * known, or while a start is in progress. Otherwise it marks the start,
     * subscribes one `server-ready` and one `port` handler, records both
     * unsubscribe handles, and spawns `npm run dev`; a spawn that throws
     * clears `serverIsStarting` (the handlers stay registered).
     */
    method StartPreviewServer(spawnOk: bool)
      requires Valid()
      modifies this, rt
      ensures Valid()
      ensures webContainerInstance == old(webContainerInstance) && previewUrl == old(previewUrl)
      ensures containerBooting == old(containerBooting) && installingDeps == old(installingDeps)
      ensures autoStarted == old(autoStarted)
      ensures rt.globalWebContainer == old(rt.globalWebContainer)
      ensures rt.installedDependencies == old(rt.installedDependencies)
      ensures webContainerInstance.None? || Truthy(old(previewUrl)) || old(serverIsStarting) ==>
        && serverIsStarting == old(serverIsStarting) && unsubscribes == old(unsubscribes)
        && rt.listeners == old(rt.listeners) && rt.nextListenerId == old(rt.nextListenerId)
        && rt.calls == old(rt.calls)
      ensures webContainerInstance.Some? && !Truthy(old(previewUrl)) && !old(serverIsStarting) ==>
        var wc, n := webContainerInstance.value, old(rt.nextListenerId);
        && serverIsStarting == spawnOk
        && unsubscribes == old(unsubscribes) + [n, n + 1]
        && rt.listeners == old(rt.listeners) + [Listener(n, wc, ServerReady), Listener(n + 1, wc, Port)]
        && rt.nextListenerId == n + 2
        && rt.calls == old(rt.calls) + [SpawnCall(wc, NpmRunDev)]
    {
      if webContainerInstance.None? || Truthy(previewUrl) || serverIsStarting {
        return;
      }
      var wc := webContainerInstance.value;
      serverIsStarting := true;
      var unsubServerReady := rt.Subscribe(wc, ServerReady);
      unsubscribes := unsubscribes + [unsubServerReady];
      var unsubPort := rt.Subscribe(wc, Port);
      unsubscribes := unsubscribes + [unsubPort];
      var r := RunCommand(NpmRunDev, spawnOk, []);
      if r.Failed? {
        serverIsStarting := false;
      }
    }

    /**
     * Container `wc` emits `server-ready(port, url)`. Each of this session's
     * `server-ready` handlers on `wc` adopts `url` whatever the port, clears
     * `serverIsStarting` and unsubscribes itself; with no such handler nothing
     * happens. An earlier URL is overwritten.
     */
    method OnServerReady(wc: ContainerId, port: int, url: string)
      requires Valid()
      modifies this, rt`listeners
      ensures Valid()
      ensures webContainerInstance == old(webContainerInstance) && unsubscribes == old(unsubscribes)
      ensures containerBooting == old(containerBooting) && autoStarted == old(autoStarted)
      ensures installingDeps == old(installingDeps)
      ensures Handlers(old(rt.listeners), unsubscribes, wc, ServerReady) == [] ==>
        previewUrl == old(previewUrl) && serverIsStarting == old(serverIsStarting) && rt.listeners == old(rt.listeners)
      ensures Handlers(old(rt.listeners), unsubscribes, wc, ServerReady) != [] ==>
        && previewUrl == Some(url) && !serverIsStarting
        && rt.listeners == WithoutHandlers(old(rt.listeners), unsubscribes, wc, ServerReady)
    {
      if Handlers(rt.listeners, unsubscribes, wc, ServerReady) != [] {
        previewUrl := Some(url);
        serverIsStarting := false;
        rt.listeners := WithoutHandlers(rt.listeners, unsubscribes, wc, ServerReady);
      }
    }

    /**
     * Container `wc` emits `port(port, status, url)`. This session's `port`
     * handlers on `wc` act only for port 3000 with status "open": they adopt
     * `url`, clear `serverIsStarting` and unsubscribe themselves. Any other
     * port event changes nothing.
     */
    method OnPort(wc: ContainerId, port: int, status: string, url: string)
      requires Valid()
      modifies this, rt`listeners
      ensures Valid()
      ensures webContainerInstance == old(webContainerInstance) && unsubscribes == old(unsubscribes)
      ensures containerBooting == old(containerBooting) && autoStarted == old(autoStarted)
      ensures installingDeps == old(installingDeps)
      ensures port != DevServerPort || status != "open" || Handlers(old(rt.listeners), unsubscribes, wc, Port) == [] ==>
        previewUrl == old(previewUrl) && serverIsStarting == old(serverIsStarting) && rt.listeners == old(rt.listeners)
      ensures port == DevServerPort && status == "open" && Handlers(old(rt.listeners), unsubscribes, wc, Port) != [] ==>
        && previewUrl == Some(url) && !serverIsStarting
        && rt.listeners == WithoutHandlers(old(rt.listeners), unsubscribes, wc, Port)
    {
      if port == DevServerPort && status == "open" && Handlers(rt.listeners, unsubscribes, wc, Port) != [] {
        previewUrl := Some(url);
        serverIsStarting := false;
        rt.listeners := WithoutHandlers(rt.listeners, unsubscribes, wc, Port);
      }
    }

    /**
     * The auto-start effect: when an instance exists, no URL is known, no
     * start is in progress and the one-shot flag is clear, it sets the flag
     * and then starts the preview server.
     */
    method AutoStart(spawnOk: bool) returns (fired: bool)
      requires Valid()
      modifies this, rt
      ensures Valid()
      ensures fired == old(AutoStartDue())
      ensures autoStarted == (old(autoStarted) || fired)
      ensures webContainerInstance == old(webContainerInstance) && previewUrl == old(previewUrl)
      ensures containerBooting == old(containerBooting) && installingDeps == old(installingDeps)
      ensures rt.globalWebContainer == old(rt.globalWebContainer)
      ensures rt.installedDependencies == old(rt.installedDependencies)
      ensures !fired ==>
        && serverIsStarting == old(serverIsStarting) && unsubscribes == old(unsubscribes)
        && rt.listeners == old(rt.listeners) && rt.nextListenerId == old(rt.nextListenerId)
        && rt.calls == old(rt.calls)
      ensures fired ==>
        var wc, n := webContainerInstance.value, old(rt.nextListenerId);
        && serverIsStarting == spawnOk
        && unsubscribes == old(unsubscribes) + [n, n + 1]
        && rt.listeners == old(rt.listeners) + [Listener(n, wc, ServerReady), Listener(n + 1, wc, Port)]
        && rt.nextListenerId == n + 2
        && rt.calls == old(rt.calls) + [SpawnCall(wc, NpmRunDev)]
    {
      fired := AutoStartDue();
      if fired {
        autoStarted := true;
        StartPreviewServer(spawnOk);
      }
    }

    /** The mount effect's cleanup: call every stored unsubscribe in order, then empty the list. */
    method Unmount()
      requires Valid()
      modifies this`unsubscribes, rt`listeners
      ensures Valid()
      ensures unsubscribes == []
      ensures rt.listeners == Released(old(rt.listeners), old(unsubscribes))
      ensures old(unsubscribes) == [] ==> rt.listeners == old(rt.listeners)
    {
      var i := 0;
      ReleasedNothing(rt.listeners);
      assert unsubscribes[..0] == [];
      while i < |unsubscribes|
        invariant 0 <= i <= |unsubscribes| && unsubscribes == old(unsubscribes)
        invariant rt.Valid()
        invariant rt.listeners == Released(old(rt.listeners), unsubscribes[..i])
      {
        var ids := unsubscribes[..i];
        ReleasedTwice(old(rt.listeners), ids, [unsubscribes[i]]);
        rt.Unsubscribe(unsubscribes[i]);
        assert unsubscribes[..i + 1] == ids + [unsubscribes[i]];
        i := i + 1;
      }
      assert unsubscribes[..i] == unsubscribes;
      unsubscribes := [];
    }
  }

  /**
   * Unmounting a provider and mounting a new one adopts the container booted
   * by the first: over both sessions the sandbox is booted once and
   * `npm install` is spawned once, even though it exited with a failure code.
   */
  method RemountReusesContainer(wc: ContainerId, laterBoot: Option<ContainerId>, laterMountOk: bool, laterInstall: InstallOutcome)
    returns (boots: nat, installs: nat, adopted: Option<ContainerId>, installed: bool)
    ensures boots == 1 && installs == 1 && adopted == Some(wc) && installed
  {
    var rt := new Runtime();
    var first := new Provider(rt);
    first.Boot(Some(wc), true, InstallExited(1));
    first.Unmount();
    var second := new Provider(rt);
    second.Boot(laterBoot, laterMountOk, laterInstall);
    assert rt.calls == FreshBootCalls(Some(wc), true, false) by {
      assert [] + FreshBootCalls(Some(wc), true, false) == FreshBootCalls(Some(wc), true, false);
    }
    boots, installs, adopted, installed := Boots(rt.calls), Installs(rt.calls), second.webContainerInstance, rt.installedDependencies;
  }

  /** A reboot boots a second container but does not run `npm install` again. */
  method RebootKeepsInstall(wc1: ContainerId, wc2: ContainerId, install: InstallOutcome)
    returns (boots: nat, installs: nat, instance: Option<ContainerId>)
    ensures boots == 2 && installs == 1 && instance == Some(wc2)
  {
    var rt := new Runtime();
    var p := new Provider(rt);
    p.Boot(Some(wc1), true, InstallExited(0));
    ghost var afterFirst := rt.calls;
    assert afterFirst == FreshBootCalls(Some(wc1), true, false) by {
      assert [] + FreshBootCalls(Some(wc1), true, false) == FreshBootCalls(Some(wc1), true, false);
    }
    p.Reboot(Some(wc2), true, install);
    BootsAppend(afterFirst, FreshBootCalls(Some(wc2), true, true));
    InstallsAppend(afterFirst, FreshBootCalls(Some(wc2), true, true));
    boots, installs, instance := Boots(rt.calls), Installs(rt.calls), p.webContainerInstance;
  }

  /**
   * After the auto-start, a matching `port` event and a `server-ready` event
   * both adopt their URL: whichever fires second overwrites the first.
   */
  method LaterEventOverwritesUrl(wc: ContainerId, portUrl: string, readyUrl: string, portFirst: bool)
    returns (url: Option<string>)
    ensures url == Some(if portFirst then readyUrl else portUrl)
  {
    var rt := new Runtime();
    var p := new Provider(rt);
    p.Boot(Some(wc), true, InstallExited(0));
    var fired := p.AutoStart(true);
    assert rt.listeners == [Listener(0, wc, ServerReady), Listener(1, wc, Port)] && p.unsubscribes == [0, 1];
    assert Handlers(rt.listeners, p.unsubscribes, wc, Port) != [] by {
      assert rt.listeners[1] in Handlers(rt.listeners, p.unsubscribes, wc, Port);
    }
    assert Handlers(rt.listeners, p.unsubscribes, wc, ServerReady) != [] by {
      assert rt.listeners[0] in Handlers(rt.listeners, p.unsubscribes, wc, ServerReady);
    }
    if portFirst {
      p.OnPort(wc, DevServerPort, "open", portUrl);
      assert Listener(0, wc, ServerReady) in rt.listeners;
      assert Listener(0, wc, ServerReady) in Handlers(rt.listeners, p.unsubscribes, wc, ServerReady);
      p.OnServerReady(wc, 4000, readyUrl);
    } else {
      p.OnServerReady(wc, 4000, readyUrl);
      assert Listener(1, wc, Port) in rt.listeners;
      assert Listener(1, wc, Port) in Handlers(rt.listeners, p.unsubscribes, wc, Port);
      p.OnPort(wc, DevServerPort, "open", portUrl);
    }
    url := p.previewUrl;
  }

  /**
   * A reboot while the dev server is starting keeps `serverIsStarting`, so
   * after a successful boot the auto-start does not fire and a manual start
   * is a no-op.
   */
  method RebootWhileStartingBlocksAutoStart(wc1: ContainerId, wc2: ContainerId)
    returns (fired: bool, starting: bool, spawnsAfterReboot: nat)
    ensures !fired && starting && spawnsAfterReboot == 0
  {
    var rt := new Runtime();
    var p := new Provider(rt);
    p.Boot(Some(wc1), true, InstallExited(0));
    fired := p.AutoStart(true);
    p.Reboot(Some(wc2), true, InstallExited(0));
    var before := |rt.calls|;
    fired := p.AutoStart(true);
    p.StartPreviewServer(true);
    starting := p.serverIsStarting;
    spawnsAfterReboot := |rt.calls| - before;
  }

  /**
   * A boot that throws leaves the session not booting and without instance;
   * a later manual start spawns nothing.
   */
  method BootFailureThenStart(mountOk: bool, install: InstallOutcome)
    returns (booting: bool, instance: Option<ContainerId>, url: Option<string>, spawned: bool)
    ensures !booting && instance == None && url == None && !spawned
  {
    var rt := new Runtime();
    var p := new Provider(rt);
    p.Boot(None, mountOk, install);
    var before := rt.calls;
    p.StartPreviewServer(true);
    booting, instance, url, spawned := p.containerBooting, p.webContainerInstance, p.previewUrl, rt.calls != before;
  }

  /**
   * An install that throws leaves `installingDeps` set and the install flag
   * clear, so the next fresh boot runs `npm install` again.
   */
  method ThrowingInstallIsRetried(wc1: ContainerId, wc2: ContainerId)
    returns (stuckInstalling: bool, installs: nat)
    ensures stuckInstalling && installs == 2
  {
    var rt := new Runtime();
    var p := new Provider(rt);
    p.Boot(Some(wc1), true, InstallThrew);
    stuckInstalling := p.installingDeps;
    var afterFirst := rt.calls;
    assert afterFirst == FreshBootCalls(Some(wc1), true, false) by {
      assert [] + FreshBootCalls(Some(wc1), true, false) == FreshBootCalls(Some(wc1), true, false);
    }
    p.Reboot(Some(wc2), true, InstallExited(0));
    InstallsAppend(afterFirst, FreshBootCalls(Some(wc2), true, false));
    installs := Installs(rt.calls);
  }
}
