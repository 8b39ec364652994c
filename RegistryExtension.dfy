/**
 * The server's registry extension (`RegistryExtension` of omuserver).
 *
 * Registries are created on first use and kept by identifier; those declared
 * at start-up are loaded when the server starts. Access to a registry is
 * decided from its permissions. Whether an identifier is a subpart of another
 * and whether a session holds a permission are functions given to the
 * extension. `ServerRegistry`'s own `load`, `attach_session` and `store` are
 * not part of this model; the extension's calls to them are recorded in an
 * event log.
 */
module Registries {
  import opened Wrappers
  import opened Identifiers

  /** `RegistryPermissions`: the permission each kind of access asks for, if any. */
  datatype RegistryPermissions = RegistryPermissions(
    all: Option<Identifier>,
    read: Option<Identifier>,
    write: Option<Identifier>)

  datatype RegistryError = PermissionDenied(appId: Identifier, registryId: Identifier)

  /** The calls the extension makes on its registries, in order. */
  datatype RegistryEvent =
    | Load(id: Identifier)                     // `await registry.load()`
    | Attach(id: Identifier, session: Session) // `await registry.attach_session(session)`
    | StoreValue(id: Identifier, value: Bytes) // `await registry.store(value)`

  class ServerRegistry {
    const id: Identifier
    var permissions: RegistryPermissions
    /** `data`; `load` and `store` are not modelled, so it keeps the value the constructor gives it */
    var data: Option<Bytes>

    constructor (id: Identifier, permissions: RegistryPermissions)
      ensures this.id == id && this.permissions == permissions && data == None
    {
      this.id := id;
      this.permissions := permissions;
      data := None;
    }
  }

  /** `lambda permissions: [permissions.all, permissions.read]`, for listen and get. */
  function ReadRequirements(p: RegistryPermissions): seq<Option<Identifier>> {
    [p.all, p.read]
  }

  /** `lambda permissions: [permissions.all, permissions.write]`, for update. */
  function WriteRequirements(p: RegistryPermissions): seq<Option<Identifier>> {
    [p.all, p.write]
  }

  /** `any(has_permission(session, p) for p in filter(None, required))` */
  function AnyHeld(hasPermission: (Session, Identifier) -> bool, session: Session, required: seq<Option<Identifier>>): bool
    decreases |required|
  {
    if |required| == 0 then false
    else (required[0].Some? && hasPermission(session, required[0].value)) || AnyHeld(hasPermission, session, required[1..])
  }

  /** `check_permission(registry, session, get_permissions)`, with the list `get_permissions` gives. */
  function CheckPermission(
    isSubpartOf: (Identifier, Identifier) -> bool,
    hasPermission: (Session, Identifier) -> bool,
    registryId: Identifier,
    session: Session,
    required: seq<Option<Identifier>>): Outcome<RegistryError>
  {
    if isSubpartOf(registryId, session.appId) then Pass
    else if AnyHeld(hasPermission, session, required) then Pass
    else Fail(PermissionDenied(session.appId, registryId))
  }

  /** Some permission that is required (not `None`) is held, exactly when `AnyHeld` says so. */
  lemma {:induction false} AnyHeldExists(hasPermission: (Session, Identifier) -> bool, session: Session, required: seq<Option<Identifier>>)
    ensures AnyHeld(hasPermission, session, required) <==>
      exists i | 0 <= i < |required| :: required[i].Some? && hasPermission(session, required[i].value)
    decreases |required|
  {
    if |required| > 0 {
      AnyHeldExists(hasPermission, session, required[1..]);
      if exists i | 0 <= i < |required| :: required[i].Some? && hasPermission(session, required[i].value) {
        var i :| 0 <= i < |required| && required[i].Some? && hasPermission(session, required[i].value);
        if i > 0 {
          assert required[1..][i - 1] == required[i];
        }
      }
      if exists i | 0 <= i < |required| - 1 :: required[1..][i].Some? && hasPermission(session, required[1..][i].value) {
        var i :| 0 <= i < |required| - 1 && required[1..][i].Some? && hasPermission(session, required[1..][i].value);
        assert required[i + 1] == required[1..][i];
      }
    }
  }

  /**
   * The access rule: the owner (an app whose id has the registry's id as a
   * subpart) always passes; anyone else passes exactly when it holds one of
   * the required permissions, so with none required it is always denied.
   */
  lemma CheckPermissionRule(
    isSubpartOf: (Identifier, Identifier) -> bool,
    hasPermission: (Session, Identifier) -> bool,
    registryId: Identifier,
    session: Session,
    required: seq<Option<Identifier>>)
    ensures isSubpartOf(registryId, session.appId) ==>
      CheckPermission(isSubpartOf, hasPermission, registryId, session, required) == Pass
    ensures !isSubpartOf(registryId, session.appId) ==>
      (CheckPermission(isSubpartOf, hasPermission, registryId, session, required) == Pass <==>
       exists i | 0 <= i < |required| :: required[i].Some? && hasPermission(session, required[i].value))
    ensures !isSubpartOf(registryId, session.appId) && (forall i | 0 <= i < |required| :: required[i].None?) ==>
      CheckPermission(isSubpartOf, hasPermission, registryId, session, required) == Fail(PermissionDenied(session.appId, registryId))
  {
    AnyHeldExists(hasPermission, session, required);
  }

  /** Listen and get pass on `all` or `read`; update passes on `all` or `write`. */
  lemma RequirementsByAccess(
    isSubpartOf: (Identifier, Identifier) -> bool,
    hasPermission: (Session, Identifier) -> bool,
    registryId: Identifier,
    session: Session,
    p: RegistryPermissions)
    requires !isSubpartOf(registryId, session.appId)
    ensures CheckPermission(isSubpartOf, hasPermission, registryId, session, ReadRequirements(p)) == Pass <==>
      (p.all.Some? && hasPermission(session, p.all.value)) || (p.read.Some? && hasPermission(session, p.read.value))
    ensures CheckPermission(isSubpartOf, hasPermission, registryId, session, WriteRequirements(p)) == Pass <==>
      (p.all.Some? && hasPermission(session, p.all.value)) || (p.write.Some? && hasPermission(session, p.write.value))
  {
    AnyHeldExists(hasPermission, session, ReadRequirements(p));
    AnyHeldExists(hasPermission, session, WriteRequirements(p));
  }

  /** `registry.load()` for each registry, in order. */
  function Loads(registries: seq<ServerRegistry>): seq<RegistryEvent> {
    seq(|registries|, i requires 0 <= i < |registries| => Load(registries[i].id))
  }

  class RegistryExtension {
    /** `Identifier.is_subpart_of` */
    const isSubpartOf: (Identifier, Identifier) -> bool
    /** `server.permissions.has_permission` */
    const hasPermission: (Session, Identifier) -> bool
    /** The permissions `ServerRegistry` starts with when none are given. */
    const defaultPermissions: RegistryPermissions
    /** `registries` */
    var registries: map<Identifier, ServerRegistry>
    /** `_startup_registries` */
    var startupRegistries: seq<ServerRegistry>
    var events: seq<RegistryEvent>

    /** Every registry is kept under its own id, and each start-up registry is one of them. */
    ghost predicate Valid()
      reads this
    {
      && (forall id | id in registries :: registries[id].id == id)
      && (forall i | 0 <= i < |startupRegistries| ::
            startupRegistries[i].id in registries && registries[startupRegistries[i].id] == startupRegistries[i])
    }

    constructor (isSubpartOf: (Identifier, Identifier) -> bool, hasPermission: (Session, Identifier) -> bool,
                 defaultPermissions: RegistryPermissions)
      ensures this.isSubpartOf == isSubpartOf && this.hasPermission == hasPermission
      ensures this.defaultPermissions == defaultPermissions
      ensures registries == map[] && startupRegistries == [] && events == []
      ensures Valid()
    {
      this.isSubpartOf := isSubpartOf;
      this.hasPermission := hasPermission;
      this.defaultPermissions := defaultPermissions;
      registries, startupRegistries, events := map[], [], [];
    }

    /** `get(id)`: an existing registry comes back untouched; a missing one is created, kept and loaded. */
    method Get(id: Identifier) returns (registry: ServerRegistry)
      requires Valid()
      modifies this`registries, this`events
      ensures Valid()
      ensures registry.id == id && id in registries && registries[id] == registry
      ensures id in old(registries) ==> registry == old(registries)[id] && unchanged(this)
      ensures id !in old(registries) ==>
        && fresh(registry) && registry.permissions == defaultPermissions && registry.data == None
        && registries == old(registries)[id := registry]
        && events == old(events) + [Load(id)]
    {
      if id in registries {
        return registries[id];
      }
      registry := new ServerRegistry(id, defaultPermissions);
      registries := registries[id := registry];
      events := events + [Load(id)];
    }

    /**
     * `register(registry_type)`: a new id gets a registry with the type's
     * permissions, put on the start-up list; an id already present adds nothing.
     */
    method Register(id: Identifier, permissions: RegistryPermissions) returns (registry: ServerRegistry)
      requires Valid()
      modifies this`registries, this`startupRegistries
      ensures Valid()
      ensures registry.id == id && id in registries && registries[id] == registry
      ensures id in old(registries) ==> registry == old(registries)[id] && unchanged(this)
      ensures id !in old(registries) ==>
        && fresh(registry) && registry.permissions == permissions
        && registries == old(registries)[id := registry]
        && startupRegistries == old(startupRegistries) + [registry]
    {
      if id in registries {
        return registries[id];
      }
      registry := new ServerRegistry(id, permissions);
      registries := registries[id := registry];
      startupRegistries := startupRegistries + [registry];
    }

    /** `_on_start()`: loads every start-up registry in order, then empties the list. */
    method OnStart()
      requires Valid()
      modifies this`startupRegistries, this`events
      ensures Valid()
      ensures events == old(events) + Loads(old(startupRegistries))
      ensures startupRegistries == []
    {
      var i := 0;
      while i < |startupRegistries|
        invariant 0 <= i <= |startupRegistries|
        invariant startupRegistries == old(startupRegistries)
        invariant events == old(events) + Loads(startupRegistries[..i])
      {
        events := events + [Load(startupRegistries[i].id)];
        assert Loads(startupRegistries[..i + 1]) == Loads(startupRegistries[..i]) + [Load(startupRegistries[i].id)];
        i := i + 1;
      }
      assert startupRegistries[..i] == startupRegistries;
      startupRegistries := [];
    }

    /**
     * `handle_register(session, packet)`: the registry is fetched (and so
     * created) first; only an owner's packet replaces its permissions.
     */
    method HandleRegister(session: Session, id: Identifier, permissions: RegistryPermissions) returns (r: Outcome<RegistryError>)
      requires Valid()
      modifies this`registries, this`events, if id in registries then {registries[id]} else {}
      ensures Valid()
      ensures id in registries && registries[id].id == id
      ensures id in old(registries) ==> registries == old(registries) && events == old(events)
      ensures id !in old(registries) ==> events == old(events) + [Load(id)]
      ensures isSubpartOf(id, session.appId) ==> r == Pass && registries[id].permissions == permissions
      ensures !isSubpartOf(id, session.appId) ==>
        && r == Fail(PermissionDenied(session.appId, id))
        && registries[id].permissions == (if id in old(registries) then old(registries[id].permissions) else defaultPermissions)
    {
      var registry := Get(id);
      if !isSubpartOf(registry.id, session.appId) {
        return Fail(PermissionDenied(session.appId, id));
      }
      registry.permissions := permissions;
      r := Pass;
    }

    /** `handle_listen(session, identifier)`: attaches the session once it may read. */
    method HandleListen(session: Session, id: Identifier) returns (r: Outcome<RegistryError>)
      requires Valid()
      modifies this`registries, this`events
      ensures Valid()
      ensures id in registries
      ensures var fetched := if id in old(registries) then old(events) else old(events) + [Load(id)];
        var check := CheckPermission(isSubpartOf, hasPermission, id, session, ReadRequirements(registries[id].permissions));
        && r == check
        && events == fetched + (if check.Pass? then [Attach(id, session)] else [])
    {
      var registry := Get(id);
      r := CheckPermission(isSubpartOf, hasPermission, registry.id, session, ReadRequirements(registry.permissions));
      if r.Fail? {
        return;
      }
      events := events + [Attach(id, session)];
    }

    /** `handle_update(session, packet)`: stores the value once the session may write. */
    method HandleUpdate(session: Session, id: Identifier, value: Bytes) returns (r: Outcome<RegistryError>)
      requires Valid()
      modifies this`registries, this`events
      ensures Valid()
      ensures id in registries
      ensures var fetched := if id in old(registries) then old(events) else old(events) + [Load(id)];
        var check := CheckPermission(isSubpartOf, hasPermission, id, session, WriteRequirements(registries[id].permissions));
        && r == check
        && events == fetched + (if check.Pass? then [StoreValue(id, value)] else [])
    {
      var registry := Get(id);
      r := CheckPermission(isSubpartOf, hasPermission, registry.id, session, WriteRequirements(registry.permissions));
      if r.Fail? {
        return;
      }
      events := events + [StoreValue(id, value)];
    }

    /** `handle_get(session, identifier)`: the registry's data once the session may read. */
    method HandleGet(session: Session, id: Identifier) returns (r: Result<Option<Bytes>, RegistryError>)
      requires Valid()
      modifies this`registries, this`events
      ensures Valid()
      ensures id in registries
      ensures events == if id in old(registries) then old(events) else old(events) + [Load(id)]
      ensures var check := CheckPermission(isSubpartOf, hasPermission, id, session, ReadRequirements(registries[id].permissions));
        r == if check.Pass? then Ok(registries[id].data) else Err(check.error)
    {
      var registry := Get(id);
      var check := CheckPermission(isSubpartOf, hasPermission, registry.id, session, ReadRequirements(registry.permissions));
      if check.Fail? {
        return Err(check.error);
      }
      r := Ok(registry.data);
    }

    /** `store(identifier, value)`: no permission check. */
    method Store(id: Identifier, value: Bytes)
      requires Valid()
      modifies this`registries, this`events
      ensures Valid()
      ensures id in registries
      ensures events == (if id in old(registries) then old(events) else old(events) + [Load(id)]) + [StoreValue(id, value)]
    {
      var registry := Get(id);
      events := events + [StoreValue(id, value)];
    }
  }
}
