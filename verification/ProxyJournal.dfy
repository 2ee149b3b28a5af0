/**
 system_proxy_windows.go and system_proxy_restore_windows.go: ownership of the
 three proxy registry values, journalled in a marker file. The proxy settings
 lock makes enable and restore run one at a time; a call that fails has stopped
 at any of its steps, which is also what a crash leaves behind.
 */
module ProxyJournal {
  import opened Options
  import opened Text

  // None is a missing registry value.
  datatype Values = Values(enable: Option<nat>, server: Option<string>, proxyOverride: Option<string>)

  datatype State = Legacy | Prepared | Active | Restoring

  datatype Snapshot = Snapshot(
    version: nat,
    state: State,
    ownedServer: string,
    ownedOverride: string,
    restoreFrom: Option<Values>,
    original: Values)

  // A restoration under way is resumed from the values it started from.
  predicate Resumable(snapshot: Snapshot) {
    snapshot.state == Restoring ==> snapshot.restoreFrom.Some?
  }

  const DWORD := 0x1_0000_0000

  const LEGACY_BYPASS :=
    "<local>;localhost;127.*;10.*;172.16.*;172.17.*;172.18.*;172.19.*;172.2*;172.30.*;172.31.*;192.168.*"
  const BYPASS :=
    "<local>;localhost;127.*;10.*;172.16.*;172.17.*;172.18.*;172.19.*;172.20.*;172.21.*;172.22.*;172.23.*;" +
    "172.24.*;172.25.*;172.26.*;172.27.*;172.28.*;172.29.*;172.30.*;172.31.*;192.168.*"

  function Entry(scheme: string, port: nat): string {
    scheme + "=127.0.0.1:" + Decimal(port)
  }

  function ServerValue(httpPort: nat, socksPort: nat): string {
    Entry("http", httpPort) + ";" + Entry("https", httpPort) + ";" + Entry("socks", socksPort)
  }

  // A list has an entry at a place: it starts and ends there, or at a semicolon.
  predicate HasEntry(list: string, start: nat, entry: string) {
    && start + |entry| <= |list| && list[start..start + |entry|] == entry
    && (start == 0 || list[start - 1] == ';') && (start + |entry| == |list| || list[start + |entry|] == ';')
  }

  // The HTTP port serves http and https, the SOCKS port socks.
  lemma SchemesAreServed(httpPort: nat, socksPort: nat)
    ensures var list := ServerValue(httpPort, socksPort);
            && HasEntry(list, 0, "http" + "=127.0.0.1:" + Decimal(httpPort))
            && (exists i :: HasEntry(list, i, "https" + "=127.0.0.1:" + Decimal(httpPort)))
            && (exists i :: HasEntry(list, i, "socks" + "=127.0.0.1:" + Decimal(socksPort)))
  {
    ThreeEntries(Entry("http", httpPort), Entry("https", httpPort), Entry("socks", socksPort));
  }

  lemma ThreeEntries(a: string, b: string, c: string)
    ensures var list := a + ";" + b + ";" + c;
            && HasEntry(list, 0, a) && HasEntry(list, |a| + 1, b) && HasEntry(list, |a| + |b| + 2, c)
  {
  }

  function OwnedValues(server: string, bypass: string): Values {
    Values(Some(1), Some(server), Some(bypass))
  }

  // ---- whose values are these ----

  predicate Matches(current: Values, from: Values, original: Values) {
    && (current.enable == from.enable || current.enable == original.enable)
    && (current.server == from.server || current.server == original.server)
    && (current.proxyOverride == from.proxyOverride || current.proxyOverride == original.proxyOverride)
  }

  // The values an enable with this marker put in place.
  function OwnedByMarker(snapshot: Snapshot): Values {
    OwnedValues(snapshot.ownedServer, if snapshot.ownedOverride == "" then LEGACY_BYPASS else snapshot.ownedOverride)
  }

  // The values a restoration would start from; None for a marker that says it
  // is restoring but not from where.
  function StartingValues(snapshot: Snapshot, current: Values): Option<Values> {
    if snapshot.state == Restoring then snapshot.restoreFrom
    else if snapshot.version >= 1 && snapshot.ownedServer != "" then Some(OwnedByMarker(snapshot))
    else Some(current)
  }

  predicate StillOwned(snapshot: Snapshot, current: Values, from: Values) {
    if snapshot.version >= 2 && snapshot.state == Active then current == from
    else Matches(current, from, snapshot.original)
  }

  // What the code takes for its own values, and overwrites.
  predicate TakenAsOurs(snapshot: Snapshot, current: Values) {
    var from := StartingValues(snapshot, current);
    from.Some? && StillOwned(snapshot, current, from.value)
  }

  // What the marker itself says we put, or are taking back: nothing for a marker
  // without ownership fields.
  function Recorded(snapshot: Snapshot): Option<Values> {
    if snapshot.state == Restoring then snapshot.restoreFrom
    else if snapshot.version == 0 || snapshot.ownedServer == "" then None
    else Some(OwnedByMarker(snapshot))
  }

  // Some field is neither the original's nor what the marker records.
  predicate ThirdValue(snapshot: Snapshot, current: Values) {
    var original, recorded := snapshot.original, Recorded(snapshot);
    || (current.enable != original.enable && (recorded.Some? ==> current.enable != recorded.value.enable))
    || (current.server != original.server && (recorded.Some? ==> current.server != recorded.value.server))
    || (current.proxyOverride != original.proxyOverride
        && (recorded.Some? ==> current.proxyOverride != recorded.value.proxyOverride))
  }

  // ---- what restoring writes ----

  // ProxyEnable is written as a DWORD, whatever width it was read with.
  function Written(original: Values): Values {
    original.(enable := if original.enable.Some? then Some(original.enable.value % DWORD) else None)
  }

  // The switch first, then the server, then the bypass list; stopped anywhere.
  predicate InOrder(was: Values, now: Values, target: Values) {
    || now == was
    || now == was.(enable := target.enable)
    || now == target.(proxyOverride := was.proxyOverride)
    || now == target
  }

  predicate Representable(values: Values) {
    values.enable.Some? ==> values.enable.value < DWORD
  }

  // Registry and marker after a restoration without faults.
  function CleanRestore(snapshot: Snapshot, current: Values): (Values, Option<Snapshot>) {
    if StartingValues(snapshot, current).None? then (current, Some(snapshot))
    else if TakenAsOurs(snapshot, current) then (Written(snapshot.original), None)
    else (current, None)
  }

  // ---- the protocol without edits by anyone else ----

  // before: the values read before the first enable.
  ghost predicate OnTrack(registry: Values, marker: Option<Snapshot>, before: Values) {
    if marker.None? then registry == before
    else
      var snapshot := marker.value;
      && snapshot.original == before && snapshot.version == 2
      && snapshot.ownedServer != "" && snapshot.ownedOverride == BYPASS
      && match snapshot.state
         case Legacy => false
         case Prepared => Matches(registry, OwnedValues(snapshot.ownedServer, BYPASS), before)
         case Active => registry == OwnedValues(snapshot.ownedServer, BYPASS)
         case Restoring => snapshot.restoreFrom.Some? && Matches(registry, snapshot.restoreFrom.value, before)
  }

  datatype Operation = Enable(httpPort: nat, socksPort: nat) | Restore

  class Proxy {
    var registry: Values
    var marker: Option<Snapshot>
    ghost const before: Values

    ghost predicate Undisturbed()
      reads this
    {
      Representable(before) && OnTrack(registry, marker, before)
    }

    constructor (registry: Values)
      ensures this.registry == registry && marker == None && before == registry
    {
      this.registry, this.marker, this.before := registry, None, registry;
    }

    // A step of the operating system; with faulty set, any of them may fail.
    method Step(faulty: bool) returns (ok: bool)
      ensures !faulty ==> ok
    {
      ok := true;
      if faulty {
        ok := *;
      }
    }

    // Three writes in order; stops after any of them.
    method WriteValues(values: Values, faulty: bool) returns (ok: bool)
      modifies this`registry
      ensures InOrder(old(registry), registry, Written(values))
      ensures ok ==> registry == Written(values)
      ensures !faulty ==> ok
    {
      ok := Step(faulty);
      if !ok {
        return;
      }
      registry := registry.(enable := if values.enable.Some? then Some(values.enable.value % DWORD) else None);
      ok := Step(faulty);
      if !ok {
        return;
      }
      registry := registry.(server := values.server);
      ok := Step(faulty);
      if !ok {
        return;
      }
      registry := registry.(proxyOverride := values.proxyOverride);
      ok := Step(faulty);
    }

    method RemoveMarker(faulty: bool) returns (ok: bool)
      modifies this`marker
      ensures marker == old(marker) || marker == None
      ensures ok ==> marker == None
      ensures !faulty ==> ok
    {
      ok := Step(faulty);
      if ok {
        marker := None;
        ok := Step(faulty);
      }
    }

    // Atomic replacement of the marker file.
    method SaveMarker(snapshot: Snapshot, faulty: bool) returns (ok: bool)
      modifies this`marker
      ensures marker == old(marker) || marker == Some(snapshot)
      ensures ok ==> marker == Some(snapshot)
      ensures !faulty ==> ok
    {
      ok := Step(faulty);
      if ok {
        marker := Some(snapshot);
        ok := Step(faulty);
      }
    }

    method Restore(faulty: bool) returns (ok: bool, foreign: bool)
      modifies this
      ensures old(marker).None? ==> ok && !foreign && registry == old(registry) && marker == None
      // A third value in any field: nothing is written and the marker is dropped,
      // provided the marker records what is ours.
      ensures old(marker).Some? && Recorded(old(marker.value)).Some? && ThirdValue(old(marker.value), old(registry)) ==>
                && registry == old(registry)
                && (ok ==> foreign && marker == None)
      ensures old(marker).Some? && !TakenAsOurs(old(marker.value), old(registry)) ==>
                && registry == old(registry)
                && (ok ==> foreign && marker == None)
      // A restoring marker that does not say from where is an error for ever.
      ensures old(marker).Some? && old(marker.value.state) == Restoring && old(marker.value.restoreFrom).None? ==>
                !ok && !foreign && registry == old(registry) && marker == old(marker)
      // Otherwise every field is left, or given back its original value, and the
      // marker is dropped only when all three are.
      ensures old(marker).Some? && TakenAsOurs(old(marker.value), old(registry)) ==>
                && !foreign
                && InOrder(old(registry), registry, Written(old(marker.value.original)))
                && (marker.None? ==> registry == Written(old(marker.value.original)))
      ensures ok ==> marker == None
      ensures old(marker).Some? && !faulty ==>
                (registry, marker) == CleanRestore(old(marker.value), old(registry))
      // The journal says restoring before the first write.
      ensures registry != old(registry) && marker.Some? ==> marker.value.state == Restoring
      ensures old(Undisturbed()) ==> Undisturbed()
      ensures !faulty && old(marker.Some? ==> Resumable(marker.value)) ==> ok
    {
      ok, foreign := true, false;
      if marker.None? {
        return;
      }
      var snapshot := marker.value;
      ok := Step(faulty);
      if !ok {
        return;
      }
      var current := registry;
      var from := StartingValues(snapshot, current);
      if from.None? {
        return false, false;
      }
      ThirdValueIsForeign(snapshot, current);
      if !StillOwned(snapshot, current, from.value) {
        ok := RemoveMarker(faulty);
        return ok, ok;
      }
      if snapshot.state != Restoring {
        snapshot := snapshot.(version := 2, state := Restoring, restoreFrom := Some(current));
        ok := SaveMarker(snapshot, faulty);
        if !ok {
          return;
        }
      }
      ok := WriteValues(snapshot.original, faulty);
      if !ok {
        return;
      }
      ok := Step(faulty);
      if !ok {
        return;
      }
      ok := RemoveMarker(faulty);
    }

    method Enable(httpPort: nat, socksPort: nat, faulty: bool) returns (ok: bool)
      modifies this
      ensures ok ==>
                && registry == Values(Some(1), Some(ServerValue(httpPort, socksPort)), Some(BYPASS))
                && marker.Some?
                && marker.value ==
                   Snapshot(2, Active, ServerValue(httpPort, socksPort), BYPASS, None, marker.value.original)
      ensures ok && old(marker).None? ==> marker.value.original == old(registry)
      ensures ok && old(marker).Some? ==>
                marker.value.original == CleanRestore(old(marker.value), old(registry)).0
      ensures old(Undisturbed()) ==> Undisturbed()
      ensures !faulty && old(marker.Some? ==> Resumable(marker.value)) ==> ok
    {
      var foreign;
      ok, foreign := Restore(faulty);
      if !ok {
        return;
      }
      ok := Step(faulty);
      if !ok {
        return;
      }
      var server := ServerValue(httpPort, socksPort);
      var snapshot := Snapshot(2, Prepared, server, BYPASS, None, registry);
      ok := SaveMarker(snapshot, faulty);
      if !ok {
        return;
      }
      ok := WriteValues(OwnedValues(server, BYPASS), faulty);
      if !ok {
        return;
      }
      ok := Step(faulty);
      if !ok {
        return;
      }
      ok := SaveMarker(snapshot.(state := Active), faulty);
    }

    // Any sequence of enables and restores, each crashing anywhere, then a
    // restore that succeeds: exactly the values read before the first enable.
    method Run(operations: seq<(Operation, bool)>, faulty: bool) returns (ok: bool)
      requires Undisturbed()
      modifies this
      ensures Undisturbed()
      ensures ok ==> registry == before && marker == None
      ensures !faulty ==> ok
    {
      var foreign;
      for i := 0 to |operations|
        invariant Undisturbed()
      {
        match operations[i] {
          case (Enable(httpPort, socksPort), failing) => ok := Enable(httpPort, socksPort, failing);
          case (Restore, failing) => ok, foreign := Restore(failing);
        }
      }
      ok, foreign := Restore(faulty);
    }

    // Not even a clean enable and restore gives back a ProxyEnable wider than
    // the DWORD it is written as; every other starting point comes back exactly.
    method EnableThenRestore(httpPort: nat, socksPort: nat)
      requires marker.None?
      modifies this
      ensures marker == None
      ensures registry == old(registry) <==> Representable(old(registry))
    {
      var ok := Enable(httpPort, socksPort, false);
      var foreign;
      ok, foreign := Restore(false);
      WrittenIsExact(old(registry));
    }
  }

  lemma WrittenIsExact(original: Values)
    ensures Written(original) == original <==> Representable(original)
  {
  }

  // Each field is at one of two ends.
  predicate Between(current: Values, a: Values, b: Values) {
    && current.enable in {a.enable, b.enable}
    && current.server in {a.server, b.server}
    && current.proxyOverride in {a.proxyOverride, b.proxyOverride}
  }

  // What is taken for ours, marker by marker. Ours are the switch at 1, the
  // server the marker names, and the bypass list it names or, from an older
  // program that named none, the list that program wrote.
  lemma OwnershipByMarker(snapshot: Snapshot, current: Values)
    ensures var bypass := if |snapshot.ownedOverride| > 0 then snapshot.ownedOverride else LEGACY_BYPASS;
            var ours := Values(Some(1), Some(snapshot.ownedServer), Some(bypass));
            TakenAsOurs(snapshot, current) <==>
            match snapshot.state
            case Restoring =>
              snapshot.restoreFrom.Some? && Between(current, snapshot.restoreFrom.value, snapshot.original)
            case Active =>
              if |snapshot.ownedServer| == 0 || snapshot.version == 0 then true
              else if snapshot.version == 1 then Between(current, ours, snapshot.original)
              else current == ours
            case _ =>
              if |snapshot.ownedServer| == 0 || snapshot.version == 0 then true
              else Between(current, ours, snapshot.original)
  {
  }

  // A marker that records what is ours never lets a third value pass.
  lemma ThirdValueIsForeign(snapshot: Snapshot, current: Values)
    ensures Recorded(snapshot).Some? ==>
              (TakenAsOurs(snapshot, current) <==>
                && !ThirdValue(snapshot, current)
                && (snapshot.version >= 2 && snapshot.state == Active ==> current == Recorded(snapshot).value))
    ensures Recorded(snapshot).None? && snapshot.state != Restoring ==> TakenAsOurs(snapshot, current)
  {
  }

  // Exactly the markers under which somebody's edit survives a restoration that
  // then drops the marker: those that record what is ours.
  lemma EditsAreRespectedExactly(snapshot: Snapshot)
    ensures (forall current | ThirdValue(snapshot, current) :: CleanRestore(snapshot, current) == (current, None)) <==>
            Recorded(snapshot).Some?
  {
    forall current | ThirdValue(snapshot, current)
      ensures Recorded(snapshot).Some? ==> CleanRestore(snapshot, current) == (current, None)
    {
      ThirdValueIsForeign(snapshot, current);
    }
    if Recorded(snapshot).None? {
      var current := Edited(snapshot.original);
      assert ThirdValue(snapshot, current);
      ThirdValueIsForeign(snapshot, current);
      assert current.server != snapshot.original.server;
      assert CleanRestore(snapshot, current) != (current, None);
    }
  }

  // Somebody else's proxy server.
  function Edited(values: Values): (edited: Values)
    ensures edited.server != values.server
  {
    var server := (if values.server.Some? then values.server.value else "") + ":";
    assert values.server.Some? ==> |server| == |values.server.value| + 1;
    values.(server := Some(server))
  }

  // Exactly the markers under which it is not overwritten, the marker kept or not.
  lemma EditsAreKeptExactly(snapshot: Snapshot)
    ensures (forall current | ThirdValue(snapshot, current) :: CleanRestore(snapshot, current).0 == current) <==>
            snapshot.state == Restoring || (snapshot.version >= 1 && snapshot.ownedServer != "")
  {
    if Recorded(snapshot).Some? {
      EditsAreRespectedExactly(snapshot);
    } else if snapshot.state != Restoring {
      var current := Edited(snapshot.original);
      assert ThirdValue(snapshot, current);
      ThirdValueIsForeign(snapshot, current);
      assert Written(snapshot.original).server == snapshot.original.server != current.server;
    }
  }

  // A marker of an older program, without ownership fields.
  const LEGACY_MARKER := Snapshot(0, Legacy, "", "", None, Values(Some(0), None, None))

  const CORPORATE := Values(Some(1), Some("corp-proxy:8080"), Some("corp"))

  // Under it, what somebody else has set since is overwritten.
  method RestoreUnderLegacyMarker(proxy: Proxy) returns (ok: bool, foreign: bool)
    requires proxy.marker == Some(LEGACY_MARKER) && proxy.registry == CORPORATE
    modifies proxy
    ensures ThirdValue(LEGACY_MARKER, CORPORATE)
    ensures ok && !foreign && proxy.registry == Values(Some(0), None, None) && proxy.marker == None
  {
    ThirdValueIsForeign(LEGACY_MARKER, CORPORATE);
    ok, foreign := proxy.Restore(false);
  }

  // With a wide ProxyEnable, a crash after the first write is mistaken for an
  // edit by someone else, and the server we set is never taken back.
  lemma WideEnableLosesTheRestore(server: string)
    ensures var original := Values(Some(DWORD), None, None);
            var from := OwnedValues(server, BYPASS);
            var snapshot := Snapshot(2, Restoring, server, BYPASS, Some(from), original);
            && TakenAsOurs(snapshot, from)
            && !TakenAsOurs(snapshot, from.(enable := Written(original).enable))
  {
  }
}
