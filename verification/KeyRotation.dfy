/** Rotating the credential key while configurations are saved. */
module KeyRotation {
  import opened Wrappers
  import opened Decimal
  import opened Secrets

  datatype Conn = Conn(service: string, config: Config)

  /** The stored connections, the version override of the process and the configured version; `saved`
      keeps, for the record, the plaintext each connection was last given. */
  datatype World = World(
    conns: map<string, Conn>,
    override: Option<string>,
    configured: string,
    saved: map<string, Config>)

  // ---- Versions ----

  function VersionName(n: nat): string {
    "v" + Print(n)
  }

  function StripVs(s: string): string {
    if s != "" && s[0] == 'v' then StripVs(s[1..]) else s
  }

  /** The version after `current`, unless that is not a number. */
  function NextVersion(current: string): Option<string> {
    var n := Parse(StripVs(current));
    if n.Some? then Some(VersionName(n.value + 1)) else None
  }

  lemma VersionNameGood(n: nat)
    ensures GoodVersion(VersionName(n)) && NextVersion(VersionName(n)) == Some(VersionName(n + 1))
  {
    ParsePrint(n);
    var s := Print(n);
    assert DigitValue(s[0]).Some? && s[0] != 'v';
    assert VersionName(n)[1..] == s;
    assert StripVs(s) == s;
    assert StripVs(VersionName(n)) == StripVs(VersionName(n)[1..]);
    forall i | 0 <= i < |VersionName(n)| ensures VersionName(n)[i] != ':' {
      assert i > 0 ==> VersionName(n)[i] == s[i - 1] && DigitValue(s[i - 1]).Some?;
    }
  }

  /** Any number of leading "v"s is passed over. */
  lemma {:induction false} LeadingVs(vs: string, n: nat)
    requires forall i :: 0 <= i < |vs| ==> vs[i] == 'v'
    ensures NextVersion(vs + Print(n)) == Some(VersionName(n + 1))
  {
    var s := vs + Print(n);
    if vs == "" {
      ParsePrint(n);
      assert s == Print(n);
      assert DigitValue(s[0]).Some? && s[0] != 'v';
    } else {
      assert s[0] == 'v' && s[1..] == vs[1..] + Print(n);
      LeadingVs(vs[1..], n);
    }
  }

  // ---- Operations ----

  /** One connection re-encrypted; webhook connections are left as they are. */
  function ReencryptConn(c: Cipher, version: string, conn: Conn): Option<Conn> {
    var fields := CredentialFields(conn.service);
    if fields.None? then Some(conn)
    else
      var plain := DecryptConfig(c, fields.value, conn.config);
      if plain.None? then None else Some(conn.(config := EncryptConfig(c, version, fields.value, plain.value)))
  }

  predicate AllReencrypt(c: Cipher, version: string, conns: map<string, Conn>) {
    forall id | id in conns :: ReencryptConn(c, version, conns[id]).Some?
  }

  /** `rotate_credential_key`: the override is set first, and stays when a connection cannot be read and
      the rows are left as they were. */
  function RotateStep(c: Cipher, w: World, envWritten: bool): World {
    var current := Active(w.override, w.configured);
    var next := if current.Some? then NextVersion(current.value) else None;
    if next.None? then w
    else if AllReencrypt(c, next.value, w.conns) then
      w.(conns := map id | id in w.conns :: ReencryptConn(c, next.value, w.conns[id]).value,
         override := next, configured := if envWritten then next.value else w.configured)
    else w.(override := next)
  }

  /** A save that replaces the configuration. */
  function SaveStep(c: Cipher, w: World, id: string, service: string, config: Config): World {
    var fields, version := SecretFields(service), Active(w.override, w.configured);
    if fields.None? || version.None? then w
    else
      w.(conns := w.conns[id := Conn(service, EncryptConfig(c, version.value, fields.value, config))],
         saved := w.saved[id := config])
  }

  /** A save that lays the given fields over the stored ones, keeping a secret that was not given. */
  function OverlayStep(c: Cipher, w: World, id: string, config: Config): World {
    if id !in w.conns || id !in w.saved then w
    else
      var fields, version := SecretFields(w.conns[id].service), Active(w.override, w.configured);
      if fields.None? || version.None? then w
      else
        var given := EncryptConfig(c, version.value, fields.value, config);
        w.(conns := w.conns[id := w.conns[id].(config := w.conns[id].config + given)],
           saved := w.saved[id := w.saved[id] + config])
  }

  /** A save that decrypts the stored configuration, lays the given fields over it and encrypts all. */
  function MergeStep(c: Cipher, w: World, id: string, config: Config): World {
    if id !in w.conns || id !in w.saved then w
    else
      var fields, version := SecretFields(w.conns[id].service), Active(w.override, w.configured);
      if fields.None? || version.None? then w
      else
        var plain := DecryptConfig(c, fields.value, w.conns[id].config);
        if plain.None? then w
        else
          var all := EncryptConfig(c, version.value, fields.value, plain.value + config);
          w.(conns := w.conns[id := w.conns[id].(config := all)],
             saved := w.saved[id := w.saved[id] + config])
  }

  datatype Event =
    | Save(id: string, service: string, config: Config)
    | Overlay(id: string, config: Config)
    | Merge(id: string, config: Config)
    | Rotate(envWritten: bool)
    | Restart

  function Step(c: Cipher, w: World, e: Event): World {
    match e
    case Save(id, service, config) => SaveStep(c, w, id, service, config)
    case Overlay(id, config) => OverlayStep(c, w, id, config)
    case Merge(id, config) => MergeStep(c, w, id, config)
    case Rotate(envWritten) => RotateStep(c, w, envWritten)
    case Restart => w.(override := None)
  }

  function Run(c: Cipher, n: nat, events: seq<Event>): World {
    if events == [] then World(map[], None, VersionName(n), map[])
    else Step(c, Run(c, n, events[..|events| - 1]), events[|events| - 1])
  }

  /** The loop of `rotate_credential_key` over the credential connections, listed in `ids`. */
  method Reencrypt(c: Cipher, keys: KeyState, configured: string, conns: map<string, Conn>, ids: seq<string>)
    returns (out: Option<map<string, Conn>>)
    requires keys.Valid() && Active(keys.activeVersion, configured).Some?
    requires forall id :: id in ids <==> id in conns && CredentialFields(conns[id].service).Some?
    requires forall i, j :: 0 <= i < j < |ids| ==> ids[i] != ids[j]
    modifies keys`keyCache
    ensures keys.Valid()
    ensures var version := Active(keys.activeVersion, configured).value;
      out == if AllReencrypt(c, version, conns)
             then Some(map id | id in conns :: ReencryptConn(c, version, conns[id]).value) else None
  {
    var done := conns;
    ghost var version := Active(keys.activeVersion, configured).value;
    for i := 0 to |ids|
      invariant keys.Valid() && done.Keys == conns.Keys
      invariant forall id :: id in conns ==>
                  (if id in ids[..i] then ReencryptConn(c, version, conns[id]) == Some(done[id])
                   else done[id] == conns[id])
    {
      var id := ids[i];
      assert id in ids && ids[..i + 1] == ids[..i] + [id];
      var conn := ReencryptOne(c, keys, configured, done[id]);
      if conn.None? {
        assert id in conns && ReencryptConn(c, version, conns[id]).None?;
        return None;
      }
      done := done[id := conn.value];
    }
    assert ids[..|ids|] == ids;
    assert forall id :: id in conns ==> ReencryptConn(c, version, conns[id]) == Some(done[id]);
    assert AllReencrypt(c, version, conns);
    assert done == map id | id in conns :: ReencryptConn(c, version, conns[id]).value;
    return Some(done);
  }

  method ReencryptOne(c: Cipher, keys: KeyState, configured: string, conn: Conn) returns (out: Option<Conn>)
    requires keys.Valid() && Active(keys.activeVersion, configured).Some? && CredentialFields(conn.service).Some?
    modifies keys`keyCache
    ensures keys.Valid() && out == ReencryptConn(c, Active(keys.activeVersion, configured).value, conn)
  {
    var fields := CredentialFields(conn.service).value;
    var plain := keys.DecryptFields(c, fields, conn.config);
    if plain.None? {
      return None;
    }
    var config := keys.EncryptFields(c, configured, fields, plain.value);
    return Some(conn.(config := config));
  }

  /** `rotate_credential_key`; the rows change only when all can be re-encrypted. */
  method RotateCredentialKey(c: Cipher, keys: KeyState, w: World, ids: seq<string>, envWritten: bool)
    returns (w': World)
    requires keys.Valid() && keys.activeVersion == w.override
    requires forall id :: id in ids <==> id in w.conns && CredentialFields(w.conns[id].service).Some?
    requires forall i, j :: 0 <= i < j < |ids| ==> ids[i] != ids[j]
    modifies keys
    ensures w' == RotateStep(c, w, envWritten) && keys.Valid() && keys.activeVersion == w'.override
  {
    w' := w;
    var current := keys.ActiveVersion(w.configured);
    if current.None? {
      return;
    }
    var next := NextVersion(current.value);
    if next.None? {
      return;
    }
    keys.activeVersion := next;
    w' := w'.(override := next);
    var conns := Reencrypt(c, keys, w.configured, w.conns, ids);
    if conns.None? {
      return;
    }
    w' := w'.(conns := conns.value);
    if envWritten {
      w' := w'.(configured := next.value);
    }
  }

  // ---- What every step keeps ----

  /** `s` is the secret `p` as stored under some version. */
  ghost predicate Sealed(c: Cipher, s: string, p: string) {
    !IsEncrypted(p) && exists v :: GoodVersion(v) && s == Seal(c, v, p)
  }

  ghost predicate ConfigSealed(c: Cipher, fields: seq<string>, config: Config, saved: Config) {
    && config.Keys == saved.Keys
    && forall k :: k in saved ==> if k in fields then Sealed(c, config[k], saved[k]) else config[k] == saved[k]
  }

  ghost predicate ConnOk(c: Cipher, w: World, id: string) {
    && (id in w.conns <==> id in w.saved)
    && (id in w.conns ==>
          && SecretFields(w.conns[id].service).Some?
          && ConfigSealed(c, SecretFields(w.conns[id].service).value, w.conns[id].config, w.saved[id]))
  }

  ghost predicate VersionOk(v: string) {
    exists n: nat :: v == VersionName(n)
  }

  ghost predicate Inv(c: Cipher, w: World) {
    && (forall id :: ConnOk(c, w, id))
    && VersionOk(w.configured) && (w.override.Some? ==> VersionOk(w.override.value))
  }

  /** Nobody saves a secret that looks like an envelope. */
  predicate PlainEvent(w: World, e: Event) {
    match e
    case Save(id, service, config) => SecretFields(service).Some? ==> PlainSecrets(SecretFields(service).value, config)
    case Overlay(id, config) =>
      id in w.conns && SecretFields(w.conns[id].service).Some? ==>
        PlainSecrets(SecretFields(w.conns[id].service).value, config)
    case Merge(id, config) =>
      id in w.conns && SecretFields(w.conns[id].service).Some? ==>
        PlainSecrets(SecretFields(w.conns[id].service).value, config)
    case Rotate(_) => true
    case Restart => true
  }

  predicate PlainRun(c: Cipher, n: nat, events: seq<Event>) {
    events != [] ==>
      PlainRun(c, n, events[..|events| - 1]) && PlainEvent(Run(c, n, events[..|events| - 1]), events[|events| - 1])
  }

  lemma SealedOpens(c: Cipher, s: string, p: string)
    requires Sound(c) && Sealed(c, s, p)
    ensures Open(c, s) == Some(p)
  {
    var v :| GoodVersion(v) && s == Seal(c, v, p);
    SecretRoundTripIff(c, v, p);
  }

  /** A sealed configuration reads back as what was saved. */
  lemma SealedReads(c: Cipher, fields: seq<string>, config: Config, saved: Config)
    requires Sound(c) && ConfigSealed(c, fields, config, saved)
    ensures DecryptConfig(c, fields, config) == Some(saved)
  {
    forall k | k in config && k in fields ensures Open(c, config[k]) == Some(saved[k]) {
      SealedOpens(c, config[k], saved[k]);
    }
    DecryptMeans(c, fields, config, saved);
  }

  lemma ActiveGood(c: Cipher, w: World)
    requires Inv(c, w)
    ensures Active(w.override, w.configured).Some? && VersionOk(Active(w.override, w.configured).value)
    ensures GoodVersion(Active(w.override, w.configured).value)
  {
    var v := if w.override.Some? then w.override.value else w.configured;
    var n: nat :| v == VersionName(n);
    VersionNameGood(n);
  }

  lemma OneConnKeeps(c: Cipher, w: World, id: string, conn: Conn, saved: Config)
    requires Inv(c, w) && SecretFields(conn.service).Some?
    requires ConfigSealed(c, SecretFields(conn.service).value, conn.config, saved)
    ensures Inv(c, w.(conns := w.conns[id := conn], saved := w.saved[id := saved]))
  {
    var w' := w.(conns := w.conns[id := conn], saved := w.saved[id := saved]);
    forall k ensures ConnOk(c, w', k) {
      assert ConnOk(c, w, k);
    }
  }

  lemma SaveKeeps(c: Cipher, w: World, id: string, service: string, config: Config)
    requires Inv(c, w) && PlainEvent(w, Save(id, service, config))
    ensures Inv(c, SaveStep(c, w, id, service, config))
  {
    ActiveGood(c, w);
    if SecretFields(service).Some? {
      var fields, version := SecretFields(service).value, Active(w.override, w.configured).value;
      OneConnKeeps(c, w, id, Conn(service, EncryptConfig(c, version, fields, config)), config);
    }
  }

  lemma OverlayKeeps(c: Cipher, w: World, id: string, config: Config)
    requires Inv(c, w) && PlainEvent(w, Overlay(id, config))
    ensures Inv(c, OverlayStep(c, w, id, config))
  {
    ActiveGood(c, w);
    assert ConnOk(c, w, id);
    if id in w.conns {
      var conn := w.conns[id];
      var fields, version := SecretFields(conn.service).value, Active(w.override, w.configured).value;
      OneConnKeeps(c, w, id, conn.(config := conn.config + EncryptConfig(c, version, fields, config)),
                   w.saved[id] + config);
    }
  }

  lemma MergeKeeps(c: Cipher, w: World, id: string, config: Config)
    requires Sound(c) && Inv(c, w) && PlainEvent(w, Merge(id, config))
    ensures Inv(c, MergeStep(c, w, id, config))
  {
    ActiveGood(c, w);
    assert ConnOk(c, w, id);
    if id in w.conns {
      var conn := w.conns[id];
      var fields, version := SecretFields(conn.service).value, Active(w.override, w.configured).value;
      SealedReads(c, fields, conn.config, w.saved[id]);
      OneConnKeeps(c, w, id, conn.(config := EncryptConfig(c, version, fields, w.saved[id] + config)),
                   w.saved[id] + config);
    }
  }

  lemma ReencryptSeals(c: Cipher, version: string, w: World, id: string)
    requires Sound(c) && Inv(c, w) && GoodVersion(version) && id in w.conns
    ensures var r := ReencryptConn(c, version, w.conns[id]);
      && r.Some? && r.value.service == w.conns[id].service && SecretFields(r.value.service).Some? && id in w.saved
      && ConfigSealed(c, SecretFields(r.value.service).value, r.value.config, w.saved[id])
      && (CredentialFields(r.value.service).Some? ==>
            r.value.config == EncryptConfig(c, version, CredentialFields(r.value.service).value, w.saved[id]))
  {
    assert ConnOk(c, w, id);
    var conn := w.conns[id];
    if CredentialFields(conn.service).Some? {
      var fields := CredentialFields(conn.service).value;
      SealedReads(c, fields, conn.config, w.saved[id]);
    }
  }

  lemma RotateKeeps(c: Cipher, w: World, envWritten: bool)
    requires Sound(c) && Inv(c, w)
    ensures Inv(c, RotateStep(c, w, envWritten))
    ensures exists n: nat :: Active(w.override, w.configured) == Some(VersionName(n))
                             && RotateStep(c, w, envWritten).override == Some(VersionName(n + 1))
  {
    ActiveGood(c, w);
    var n: nat :| Active(w.override, w.configured).value == VersionName(n);
    VersionNameGood(n);
    VersionNameGood(n + 1);
    var w' := RotateStep(c, w, envWritten);
    forall id | id in w.conns ensures ReencryptConn(c, VersionName(n + 1), w.conns[id]).Some? {
      ReencryptSeals(c, VersionName(n + 1), w, id);
    }
    forall id ensures ConnOk(c, w', id) {
      assert ConnOk(c, w, id);
      if id in w.conns {
        ReencryptSeals(c, VersionName(n + 1), w, id);
      }
    }
  }

  lemma StepKeeps(c: Cipher, w: World, e: Event)
    requires Sound(c) && Inv(c, w) && PlainEvent(w, e)
    ensures Inv(c, Step(c, w, e))
  {
    match e
    case Save(id, service, config) => SaveKeeps(c, w, id, service, config);
    case Overlay(id, config) => OverlayKeeps(c, w, id, config);
    case Merge(id, config) => MergeKeeps(c, w, id, config);
    case Rotate(envWritten) => RotateKeeps(c, w, envWritten);
    case Restart =>
      var w' := w.(override := None);
      forall id ensures ConnOk(c, w', id) {
        assert ConnOk(c, w, id);
      }
  }

  lemma {:induction false} RunKeeps(c: Cipher, n: nat, events: seq<Event>)
    requires Sound(c) && PlainRun(c, n, events)
    ensures Inv(c, Run(c, n, events))
  {
    if events == [] {
      VersionNameGood(n);
    } else {
      RunKeeps(c, n, events[..|events| - 1]);
      StepKeeps(c, Run(c, n, events[..|events| - 1]), events[|events| - 1]);
    }
  }

  // ---- What was given ----

  /** The plaintext an id was last given, as the events alone tell. */
  function Given(events: seq<Event>, id: string): Option<Conn> {
    if events == [] then None
    else
      var before := Given(events[..|events| - 1], id);
      match events[|events| - 1]
      case Save(k, service, config) =>
        if k == id && SecretFields(service).Some? then Some(Conn(service, config)) else before
      case Overlay(k, config) => if k == id then LaidOver(before, config) else before
      case Merge(k, config) => if k == id then LaidOver(before, config) else before
      case _ => before
  }

  function LaidOver(before: Option<Conn>, config: Config): Option<Conn> {
    if before.None? then None else Some(before.value.(config := before.value.config + config))
  }

  lemma {:induction false} SavedIsGiven(c: Cipher, n: nat, events: seq<Event>, id: string)
    requires Sound(c) && PlainRun(c, n, events)
    ensures var w := Run(c, n, events);
      && (id in w.conns <==> Given(events, id).Some?) && (id in w.saved <==> id in w.conns)
      && (id in w.conns ==> Given(events, id) == Some(Conn(w.conns[id].service, w.saved[id])))
  {
    if events != [] {
      var init, last := events[..|events| - 1], events[|events| - 1];
      SavedIsGiven(c, n, init, id);
      RunKeeps(c, n, init);
      GivenStep(c, Run(c, n, init), last, id);
    }
  }

  lemma GivenStep(c: Cipher, w: World, e: Event, id: string)
    requires Sound(c) && Inv(c, w) && PlainEvent(w, e)
    ensures var w' := Step(c, w, e);
      && (id in w'.conns <==> id in w'.saved)
      && (match e
          case Save(k, service, config) =>
            if k == id && SecretFields(service).Some?
            then id in w'.conns && w'.conns[id].service == service && w'.saved[id] == config
            else SameService(w, w', id)
          case Overlay(k, config) => if k == id then Laid(w, w', id, config) else SameService(w, w', id)
          case Merge(k, config) => if k == id then Laid(w, w', id, config) else SameService(w, w', id)
          case _ => SameService(w, w', id))
  {
    ActiveGood(c, w);
    assert ConnOk(c, w, id);
    match e
    case Merge(k, config) =>
      if k == id && id in w.conns {
        SealedReads(c, SecretFields(w.conns[id].service).value, w.conns[id].config, w.saved[id]);
      }
    case Rotate(envWritten) =>
      if id in w.conns && Active(w.override, w.configured).Some? {
        RotateKeepsService(c, w, envWritten, id);
      }
    case _ =>
  }

  predicate SameService(w: World, w': World, id: string) {
    if id in w.conns && id in w.saved
    then id in w'.conns && id in w'.saved && w'.conns[id].service == w.conns[id].service && w'.saved[id] == w.saved[id]
    else id !in w'.conns && id !in w'.saved
  }

  predicate Laid(w: World, w': World, id: string, config: Config) {
    if id in w.conns && id in w.saved
    then id in w'.conns && id in w'.saved && w'.conns[id].service == w.conns[id].service
         && w'.saved[id] == w.saved[id] + config
    else id !in w'.conns && id !in w'.saved
  }

  lemma RotateKeepsService(c: Cipher, w: World, envWritten: bool, id: string)
    requires id in w.conns
    ensures var w' := RotateStep(c, w, envWritten);
      id in w'.conns && w'.conns[id].service == w.conns[id].service && w'.saved == w.saved
  {
  }

  // ---- The main results ----

  /** Over any run of saves, rotations and restarts that saves no secret looking like an envelope, every
      stored configuration, of credentials and of webhooks, reads back as what was last given. */
  lemma RotationPreservesMeaning(c: Cipher, n: nat, events: seq<Event>, id: string)
    requires Sound(c) && PlainRun(c, n, events)
    ensures var w, given := Run(c, n, events), Given(events, id);
      && (id in w.conns <==> given.Some?)
      && (id in w.conns ==>
            w.conns[id].service == given.value.service && SecretFields(w.conns[id].service).Some?
            && DecryptConfig(c, SecretFields(w.conns[id].service).value, w.conns[id].config)
               == Some(given.value.config))
  {
    RunKeeps(c, n, events);
    SavedIsGiven(c, n, events, id);
    var w := Run(c, n, events);
    assert ConnOk(c, w, id);
    if id in w.conns {
      SealedReads(c, SecretFields(w.conns[id].service).value, w.conns[id].config, w.saved[id]);
    }
  }

  /** A rotation that finds the active version `v<m>` moves to the next version number. */
  lemma RotationAdvances(c: Cipher, n: nat, events: seq<Event>, envWritten: bool) returns (m: nat)
    requires Sound(c) && PlainRun(c, n, events)
    ensures var w := Run(c, n, events);
      && Active(w.override, w.configured) == Some(VersionName(m))
      && RotateStep(c, w, envWritten).override == Some(VersionName(m + 1))
  {
    RunKeeps(c, n, events);
    var w := Run(c, n, events);
    ActiveGood(c, w);
    m :| Active(w.override, w.configured).value == VersionName(m);
    RotationCompletes(c, w, m, envWritten);
  }

  /** A rotation leaves every credential under the version it made active, and webhook connections as
      they were. */
  lemma RotationReencryptsAll(c: Cipher, n: nat, events: seq<Event>, envWritten: bool, id: string)
    requires Sound(c) && PlainRun(c, n, events) && id in Run(c, n, events).conns
    ensures var w := Run(c, n, events);
      var w' := RotateStep(c, w, envWritten);
      && w'.override.Some? && id in w'.conns && id in w.saved && w'.conns[id].service == w.conns[id].service
      && (var fields := CredentialFields(w.conns[id].service);
          w'.conns[id].config == if fields.Some? then EncryptConfig(c, w'.override.value, fields.value, w.saved[id])
                                 else w.conns[id].config)
  {
    var m := RotationAdvances(c, n, events, envWritten);
    RunKeeps(c, n, events);
    VersionNameGood(m + 1);
    RotatedConn(c, Run(c, n, events), m, envWritten, id);
    ReencryptSeals(c, VersionName(m + 1), Run(c, n, events), id);
  }

  /** Over any plain run a stored configuration is the one last given, with every non-empty secret in an
      envelope of some version number. */
  lemma StoredIsEncrypted(c: Cipher, n: nat, events: seq<Event>, id: string, k: string)
    requires Sound(c) && PlainRun(c, n, events) && id in Run(c, n, events).conns
    ensures var conn, given := Run(c, n, events).conns[id], Given(events, id);
      && given.Some? && given.value.service == conn.service && conn.config.Keys == given.value.config.Keys
      && SecretFields(conn.service).Some?
      && (k in conn.config ==>
            var s, p := conn.config[k], given.value.config[k];
            if k !in SecretFields(conn.service).value || p == "" then s == p
            else GoodVersion(UpToColon(s)) && Envelops(c, UpToColon(s), s, p))
  {
    RunKeeps(c, n, events);
    SavedIsGiven(c, n, events, id);
    var w := Run(c, n, events);
    assert ConnOk(c, w, id);
    var fields := SecretFields(w.conns[id].service).value;
    if k in w.saved[id] && k in fields {
      assert Sealed(c, w.conns[id].config[k], w.saved[id][k]);
      var v :| GoodVersion(v) && w.conns[id].config[k] == Seal(c, v, w.saved[id][k]);
      SecretIsSealed(c, v, w.saved[id][k]);
    }
  }

  /** After a rotation every non-empty secret of a credential is in an envelope of the version it made active. */
  lemma RotationSealsAll(c: Cipher, n: nat, events: seq<Event>, envWritten: bool, id: string, k: string)
    requires Sound(c) && PlainRun(c, n, events) && id in Run(c, n, events).conns
    requires var conn := Run(c, n, events).conns[id];
      CredentialFields(conn.service).Some? && k in CredentialFields(conn.service).value && k in conn.config
    ensures var w' := RotateStep(c, Run(c, n, events), envWritten);
      && w'.override.Some? && id in w'.conns && Given(events, id).Some?
      && k in w'.conns[id].config && k in Given(events, id).value.config
      && var p := Given(events, id).value.config[k];
         if p == "" then w'.conns[id].config[k] == "" else Envelops(c, w'.override.value, w'.conns[id].config[k], p)
  {
    var m := RotationAdvances(c, n, events, envWritten);
    RotationReencryptsAll(c, n, events, envWritten, id);
    VersionNameGood(m + 1);
    SavedIsGiven(c, n, events, id);
    RunKeeps(c, n, events);
    assert ConnOk(c, Run(c, n, events), id);
    var p := Run(c, n, events).saved[id][k];
    assert !IsEncrypted(p) by {
      assert Sealed(c, Run(c, n, events).conns[id].config[k], p);
    }
    SecretIsSealed(c, VersionName(m + 1), p);
  }

  /** A rotation that finds a version number always moves the override; it re-encrypts every credential, or
      else changes neither a connection nor the configuration. */
  lemma RotationIsAllOrNothing(c: Cipher, w: World, m: nat, envWritten: bool)
    requires Active(w.override, w.configured) == Some(VersionName(m))
    ensures var w', next := RotateStep(c, w, envWritten), VersionName(m + 1);
      && w'.override == Some(next) && w'.saved == w.saved
      && (|| (w'.conns == w.conns && w'.configured == w.configured
              && exists id :: id in w.conns && ReencryptConn(c, next, w.conns[id]).None?)
          || (w'.conns.Keys == w.conns.Keys && w'.configured == (if envWritten then next else w.configured)
              && forall id :: id in w.conns ==> ReencryptConn(c, next, w.conns[id]) == Some(w'.conns[id])))
  {
    VersionNameGood(m);
  }

  lemma RotatedConn(c: Cipher, w: World, m: nat, envWritten: bool, id: string)
    requires Sound(c) && Inv(c, w) && Active(w.override, w.configured) == Some(VersionName(m)) && id in w.conns
    ensures var w' := RotateStep(c, w, envWritten);
      id in w'.conns && Some(w'.conns[id]) == ReencryptConn(c, VersionName(m + 1), w.conns[id])
  {
    VersionNameGood(m);
    AllCanBeReencrypted(c, w, m);
  }

  lemma AllCanBeReencrypted(c: Cipher, w: World, m: nat)
    requires Sound(c) && Inv(c, w)
    ensures AllReencrypt(c, VersionName(m + 1), w.conns)
  {
    VersionNameGood(m + 1);
    forall k | k in w.conns ensures ReencryptConn(c, VersionName(m + 1), w.conns[k]).Some? {
      ReencryptSeals(c, VersionName(m + 1), w, k);
    }
  }

  function Rotations(events: seq<Event>): nat {
    if events == [] then 0 else Rotations(events[..|events| - 1]) + if events[|events| - 1].Rotate? then 1 else 0
  }

  /** While the process lives, the active version is the first one plus the number of rotations; so it
      is over restarts, if every rotation reached the configuration. */
  lemma {:induction false} VersionsCountRotations(c: Cipher, n: nat, events: seq<Event>)
    requires Sound(c) && PlainRun(c, n, events)
    ensures var w := Run(c, n, events);
      && (Restart !in events || Rotate(false) !in events ==>
            Active(w.override, w.configured) == Some(VersionName(n + Rotations(events))))
      && (Rotate(false) !in events ==> w.configured == VersionName(n + Rotations(events)))
  {
    if events == [] {
      VersionNameGood(n);
    } else {
      var init, last := events[..|events| - 1], events[|events| - 1];
      assert events == init + [last];
      VersionsCountRotations(c, n, init);
      RunKeeps(c, n, init);
      StepCounts(c, Run(c, n, init), last, n + Rotations(init));
    }
  }

  /** What one step does to the active and the configured version. */
  lemma StepCounts(c: Cipher, w: World, e: Event, m: nat)
    requires Sound(c) && Inv(c, w)
    ensures var w' := Step(c, w, e);
      && (!e.Rotate? ==> w'.configured == w.configured && (e != Restart ==> w'.override == w.override))
      && (e.Rotate? && Active(w.override, w.configured) == Some(VersionName(m)) ==>
            w'.override == Some(VersionName(m + 1))
            && w'.configured == if e.envWritten then VersionName(m + 1) else w.configured)
      && (e == Restart && w.configured == VersionName(m) ==> Active(w'.override, w'.configured) == Some(VersionName(m)))
  {
    VersionNameGood(m);
    if e.Rotate? && Active(w.override, w.configured) == Some(VersionName(m)) {
      RotationCompletes(c, w, m, e.envWritten);
    }
  }

  lemma RotationCompletes(c: Cipher, w: World, m: nat, envWritten: bool)
    requires Sound(c) && Inv(c, w) && Active(w.override, w.configured) == Some(VersionName(m))
    ensures var w' := RotateStep(c, w, envWritten);
      && w'.override == Some(VersionName(m + 1))
      && w'.configured == if envWritten then VersionName(m + 1) else w.configured
  {
    VersionNameGood(m);
    AllCanBeReencrypted(c, w, m);
  }

  lemma {:induction false} PrintInjective(m: nat, n: nat)
    requires Print(m) == Print(n)
    ensures m == n
  {
    ParsePrint(m);
    ParsePrint(n);
  }

  lemma VersionNameInjective(m: nat, n: nat)
    requires VersionName(m) == VersionName(n)
    ensures m == n
  {
    assert VersionName(m)[1..] == Print(m) && VersionName(n)[1..] == Print(n);
    PrintInjective(m, n);
  }

  /** The active version is number `a` and the configured one, no newer, number `b`. */
  predicate Numbered(w: World, a: nat, b: nat) {
    Active(w.override, w.configured) == Some(VersionName(a)) && w.configured == VersionName(b) && b <= a
  }

  lemma {:induction false} ConfiguredLags(c: Cipher, n: nat, events: seq<Event>) returns (a: nat, b: nat)
    requires Sound(c) && PlainRun(c, n, events)
    ensures Numbered(Run(c, n, events), a, b)
  {
    if events == [] {
      a, b := n, n;
    } else {
      var init, last := events[..|events| - 1], events[|events| - 1];
      a, b := ConfiguredLags(c, n, init);
      RunKeeps(c, n, init);
      StepCounts(c, Run(c, n, init), last, a);
      StepCounts(c, Run(c, n, init), last, b);
      match last
      case Rotate(written) => a, b := a + 1, if written then a + 1 else b;
      case Restart => a := b;
      case _ =>
    }
  }

  /** After any run, a rotation survives a restart if and only if it was written to the configuration. */
  lemma RestartForgetsIff(c: Cipher, n: nat, events: seq<Event>, envWritten: bool)
    requires Sound(c) && PlainRun(c, n, events)
    ensures var rotated := Step(c, Run(c, n, events), Rotate(envWritten));
      var restarted := Step(c, rotated, Restart);
      Active(restarted.override, restarted.configured) == Active(rotated.override, rotated.configured) <==> envWritten
  {
    var w := Run(c, n, events);
    RunKeeps(c, n, events);
    var a, b := ConfiguredLags(c, n, events);
    StepCounts(c, w, Rotate(envWritten), a);
    VersionNameGood(a + 1);
    VersionNameGood(b);
    if VersionName(b) == VersionName(a + 1) {
      VersionNameInjective(b, a + 1);
    }
  }

  /** After any run, a rotation that was not written, a restart and another rotation: the second rotation
      gets no newer a version than the first, and the very same one if and only if the configuration was up
      to date before. */
  lemma UnwrittenVersionReusedIff(c: Cipher, n: nat, events: seq<Event>, envWritten: bool)
    returns (first: nat, second: nat)
    requires Sound(c) && PlainRun(c, n, events)
    ensures var w := Run(c, n, events);
      var w1 := Step(c, w, Rotate(false));
      var w2 := Step(c, Step(c, w1, Restart), Rotate(envWritten));
      && Active(w1.override, w1.configured) == Some(VersionName(first))
      && Active(w2.override, w2.configured) == Some(VersionName(second))
      && second <= first
      && (second == first <==> Active(w.override, w.configured) == Some(w.configured))
  {
    var w := Run(c, n, events);
    RunKeeps(c, n, events);
    var a, b := ConfiguredLags(c, n, events);
    StepCounts(c, w, Rotate(false), a);
    var w1 := Step(c, w, Rotate(false));
    StepKeeps(c, w, Rotate(false));
    StepKeeps(c, w1, Restart);
    VersionNameGood(b);
    StepCounts(c, Step(c, w1, Restart), Rotate(envWritten), b);
    first, second := a + 1, b + 1;
    if VersionName(a) == VersionName(b) {
      VersionNameInjective(a, b);
    }
  }
}
