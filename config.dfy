/**
 * The server's database configuration (server/src/config.rs): database
 * names are first reserved, then committed as databases or rolled back,
 * and a map of remote servers is kept beside them.
 *
 * The lock around the state, the background worker of a committed
 * database and its cancellation token are not part of this model; the
 * shutdown token is a flag.
 */
module ServerConfig {
  import opened Wrappers
  import opened Orders
  import opened SortedMaps
  import opened ObjectPaths

  /** Database rules, reduced to the database name and the rest as opaque settings. */
  datatype DatabaseRules = DatabaseRules(name: string, settings: seq<string>)

  datatype ConfigError =
    | DatabaseAlreadyExists(dbName: string)
    | DatabaseNotFound(dbName: string)

  datatype UpdateError<E> = Update(source: ConfigError) | Closure(closure: E)

  const DbRulesFileName := "rules.pb"

  /** A committed database: its rules, which `update_db_rules` replaces, and the server id it was created with. */
  class Db {
    var rules: DatabaseRules
    const serverId: nat

    constructor (rules: DatabaseRules, serverId: nat)
      ensures this.rules == rules && this.serverId == serverId
    {
      this.rules := rules;
      this.serverId := serverId;
    }
  }

  class Config {
    var shutdown: bool
    var reservations: set<string>
    var databases: Entries<string, Db>
    var remotes: Entries<nat, string>

    /**
     * The maps are in key order, no reserved name is a database yet, and
     * each database has an object of its own (`commit` creates one per name).
     */
    ghost predicate Valid()
      reads this
    {
      && Sorted(StrLt, databases)
      && Sorted(NatLt, remotes)
      && (forall name :: name in reservations ==> !HasKey(databases, name))
      && DistinctValues(databases)
    }

    /** `Config::new`: nothing reserved, no database, no remote. */
    constructor ()
      ensures Valid() && !shutdown
      ensures reservations == {} && databases == [] && remotes == []
    {
      shutdown := false;
      reservations := {};
      databases := [];
      remotes := [];
    }

    /**
     * `create_db`: a name already reserved or already a database is
     * refused; any other name is reserved, and a handle holding the rules
     * is returned.
     */
    method CreateDb(rules: DatabaseRules) returns (r: Result<CreateDatabaseHandle, ConfigError>)
      requires Valid()
      modifies this
      ensures Valid()
      ensures databases == old(databases) && remotes == old(remotes) && shutdown == old(shutdown)
      ensures r.Err? <==> rules.name in old(reservations) || HasKey(databases, rules.name)
      ensures r.Err? ==> r.error == DatabaseAlreadyExists(rules.name) && reservations == old(reservations)
      ensures r.Ok? ==> && reservations == old(reservations) + {rules.name}
                        && fresh(r.value) && r.value.rules == Some(rules) && r.value.config == this
    {
      if rules.name in reservations || HasKey(databases, rules.name) {
        return Err(DatabaseAlreadyExists(rules.name));
      }
      reservations := reservations + {rules.name};
      var handle := new CreateDatabaseHandle(rules, this);
      r := Ok(handle);
    }

    /** `db`: the database of this name, if committed. */
    function Database(name: string): (r: Option<Db>)
      reads this
      requires Valid()
      ensures r.Some? <==> HasKey(databases, name)
      ensures r.Some? ==> (name, r.value) in databases
    {
      Get(databases, name)
    }

    /** `db_names_sorted`: the committed database names in ascending order. */
    function DbNamesSorted(): (r: seq<string>)
      reads this
      requires Valid()
      ensures forall name :: name in r <==> HasKey(databases, name)
      ensures forall i, j :: 0 <= i < j < |r| ==> StrLt(r[i], r[j])
    {
      var r := Keys(databases);
      assert forall name :: HasKey(databases, name) ==> name in r by {
        forall name | HasKey(databases, name) ensures name in r {
          var i :| 0 <= i < |databases| && databases[i].0 == name;
          assert r[i] == name;
        }
      }
      r
    }

    /**
     * `update_db_rules`: an unknown database is an error; otherwise the
     * closure is given the current rules, and its result replaces them
     * unless it fails, in which case the rules stay.
     */
    method UpdateDbRules<E>(dbName: string, update: DatabaseRules -> Result<DatabaseRules, E>)
      returns (r: Result<DatabaseRules, UpdateError<E>>)
      requires Valid()
      modifies set entry | entry in databases :: entry.1
      ensures !HasKey(databases, dbName) ==> r == Err(Update(DatabaseNotFound(dbName)))
      ensures HasKey(databases, dbName) ==>
                var db := Database(dbName).value;
                match update(old(db.rules))
                case Err(e) => r == Err(Closure(e)) && db.rules == old(db.rules)
                case Ok(rules) => r == Ok(rules) && db.rules == rules
      ensures forall entry :: entry in databases && entry.0 != dbName ==> entry.1.rules == old(entry.1.rules)
    {
      var found := Database(dbName);
      if found.None? {
        return Err(Update(DatabaseNotFound(dbName)));
      }
      var db := found.value;
      assert forall entry :: entry in databases && entry.0 != dbName ==> entry.1 != db by {
        DatabasesDistinct(dbName, db);
      }
      var updated := update(db.rules);
      if updated.Err? {
        return Err(Closure(updated.error));
      }
      db.rules := updated.value;
      r := Ok(updated.value);
    }

    /** The database objects of distinct names are distinct. */
    lemma DatabasesDistinct(dbName: string, db: Db)
      requires Valid() && (dbName, db) in databases
      ensures forall entry :: entry in databases && entry.0 != dbName ==> entry.1 != db
    {
      var i :| 0 <= i < |databases| && databases[i] == (dbName, db);
      forall entry | entry in databases && entry.0 != dbName ensures entry.1 != db {
        var j :| 0 <= j < |databases| && databases[j] == entry;
        if i < j { assert databases[i].1 != databases[j].1; }
        else { assert databases[j].1 != databases[i].1; }
      }
    }

    /**
     * `commit`: the reservation is taken out (it must exist), and unless
     * the server is shutting down a new database with these rules is
     * inserted under the name, which cannot already be a database.
     */
    method Commit(rules: DatabaseRules, serverId: nat) returns (db: Option<Db>)
      requires Valid() && rules.name in reservations && serverId > 0
      modifies this
      ensures Valid()
      ensures reservations == old(reservations) - {rules.name}
      ensures remotes == old(remotes) && shutdown == old(shutdown)
      ensures shutdown ==> db.None? && databases == old(databases)
      ensures !shutdown ==> && db.Some? && fresh(db.value)
                            && db.value.rules == rules && db.value.serverId == serverId
                            && databases == Put(StrLt, old(databases), rules.name, db.value)
                            && |databases| == |old(databases)| + 1
                            && Database(rules.name) == db
                            && forall other :: other != rules.name ==> Get(databases, other) == Get(old(databases), other)
    {
      reservations := reservations - {rules.name};
      if shutdown {
        return None;
      }
      var created := new Db(rules, serverId);
      StrLtIsStrictTotalOrder();
      PutSpec(StrLt, databases, rules.name, created);
      assert !HasKey(databases, rules.name);
      PutDistinctValues(StrLt, databases, rules.name, created);
      databases := Put(StrLt, databases, rules.name, created);
      db := Some(created);
    }

    /** `rollback`: the reservation of `name` is released, if there is one. */
    method Rollback(name: string)
      requires Valid()
      modifies this
      ensures Valid()
      ensures reservations == old(reservations) - {name}
      ensures databases == old(databases) && remotes == old(remotes) && shutdown == old(shutdown)
    {
      reservations := reservations - {name};
    }

    /** `remotes_sorted`: the remotes in ascending id order. */
    function RemotesSorted(): (r: seq<(nat, string)>)
      reads this
      requires Valid()
      ensures forall i, j :: 0 <= i < j < |r| ==> r[i].0 < r[j].0
      ensures forall id: nat, addr :: (id, addr) in r <==> Get(remotes, id) == Some(addr)
    {
      forall id: nat, addr | (id, addr) in remotes ensures Get(remotes, id) == Some(addr) {
        var i :| 0 <= i < |remotes| && remotes[i] == (id, addr);
        NatLtIsStrictTotalOrder();
        GetAt(NatLt, remotes, i);
      }
      remotes
    }

    /** `update_remote`: the address of `id` is set, replacing any previous one. */
    method UpdateRemote(id: nat, addr: string)
      requires Valid()
      modifies this
      ensures Valid()
      ensures Get(remotes, id) == Some(addr)
      ensures forall other :: other != id ==> Get(remotes, other) == Get(old(remotes), other)
      ensures reservations == old(reservations) && databases == old(databases) && shutdown == old(shutdown)
    {
      NatLtIsStrictTotalOrder();
      PutSpec(NatLt, remotes, id, addr);
      remotes := Put(NatLt, remotes, id, addr);
    }

    /** `delete_remote`: `id` loses its address, which is returned, or nothing when it had none. */
    method DeleteRemote(id: nat) returns (r: Option<string>)
      requires Valid()
      modifies this
      ensures Valid()
      ensures r == Get(old(remotes), id)
      ensures Get(remotes, id) == None
      ensures forall other :: other != id ==> Get(remotes, other) == Get(old(remotes), other)
      ensures reservations == old(reservations) && databases == old(databases) && shutdown == old(shutdown)
    {
      NatLtIsStrictTotalOrder();
      RemoveSpec(NatLt, remotes, id);
      r := Get(remotes, id);
      remotes := Remove(remotes, id);
    }
  }

  /**
   * The handle `create_db` returns: it holds the name's reservation until
   * it is committed, or dropped, which rolls the reservation back.
   */
  class CreateDatabaseHandle {
    var rules: Option<DatabaseRules>
    const config: Config

    constructor (rules: DatabaseRules, config: Config)
      ensures this.rules == Some(rules) && this.config == config
    {
      this.rules := Some(rules);
      this.config := config;
    }

    /** `commit`: the rules are taken out of the handle and committed to the configuration. */
    method Commit(serverId: nat) returns (db: Option<Db>)
      requires rules.Some? && config.Valid() && rules.value.name in config.reservations && serverId > 0
      modifies this, config
      ensures rules == None && config.Valid()
      ensures config.reservations == old(config.reservations) - {old(rules).value.name}
      ensures config.shutdown ==> db.None? && config.databases == old(config.databases)
      ensures !config.shutdown ==> db.Some? && fresh(db.value) && db.value.rules == old(rules).value
                                   && config.Database(old(rules).value.name) == db
    {
      var taken := rules.value;
      rules := None;
      db := config.Commit(taken, serverId);
    }

    /** `drop`: a handle that still holds its rules releases the reservation. */
    method Drop()
      requires config.Valid()
      modifies this, config
      ensures rules == None && config.Valid()
      ensures config.reservations ==
                if old(rules).Some? then old(config.reservations) - {old(rules).value.name}
                else old(config.reservations)
      ensures config.databases == old(config.databases) && config.remotes == old(config.remotes)
    {
      if rules.Some? {
        var taken := rules.value;
        rules := None;
        config.Rollback(taken.name);
      }
    }
  }

  /** `object_store_path_for_database_config`: `<root>/<name>/rules.pb`. */
  function ObjectStorePathForDatabaseConfig(root: ObjectPath, name: string): (r: ObjectPath)
    ensures r.dirs == root.dirs + [name] && r.fileName == Some(DbRulesFileName)
  {
    SetFileName(PushAllDirs(root, [name]), DbRulesFileName)
  }

  /** Distinct databases under one root keep their rules in distinct files. */
  lemma DatabaseConfigPathsDistinct(root: ObjectPath, a: string, b: string)
    requires a != b
    ensures ObjectStorePathForDatabaseConfig(root, a) != ObjectStorePathForDatabaseConfig(root, b)
  {
    var pa := ObjectStorePathForDatabaseConfig(root, a);
    assert pa.dirs[|root.dirs|] == a;
  }
}
