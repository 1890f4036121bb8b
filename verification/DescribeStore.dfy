/**
 The in-memory side of the describe cache: procedure entries filled in place with argument cells
 that are recycled through a pool. The methods are what `Describe`, `ProcedureInfo` and
 `ArgumentInfo` do while they hold the cache's lock.
 */
module DescribeStore {
  import opened Collections
  import opened Options
  import Text

  datatype ArgType = ArgType(dataType: int, dataTypeName: string)

  datatype Row = Row(name: string, argType: ArgType)

  /** One cached description, as a value. */
  datatype Entry = Entry(timestamp: nat, packageName: string, arguments: map<string, ArgType>)

  /** The arguments that the rows of the long query stand for: the last row of a name wins. */
  function ArgsOf(rows: seq<Row>): map<string, ArgType> {
    if rows == [] then map[]
    else ArgsOf(rows[..|rows| - 1])[rows[|rows| - 1].name := rows[|rows| - 1].argType]
  }

  /** Row `i` is the last one for `name`. */
  predicate IsLastRow(rows: seq<Row>, name: string, i: nat) {
    && i < |rows| && rows[i].name == name
    && forall j | i < j < |rows| :: rows[j].name != name
  }

  /** A name is there exactly when some row has it, and then its type is that of the last such row. */
  lemma {:induction false} LastRowCounts(rows: seq<Row>, name: string)
    ensures name in ArgsOf(rows) <==> exists i :: 0 <= i < |rows| && rows[i].name == name
    ensures forall i | 0 <= i < |rows| && IsLastRow(rows, name, i) ::
      name in ArgsOf(rows) && ArgsOf(rows)[name] == rows[i].argType
  {
    if rows != [] {
      var n := |rows| - 1;
      LastRowCounts(rows[..n], name);
      assert rows == rows[..n] + [rows[n]];
      if rows[n].name != name {
        forall i | 0 <= i < |rows| && IsLastRow(rows, name, i)
          ensures name in ArgsOf(rows) && ArgsOf(rows)[name] == rows[i].argType
        {
          assert IsLastRow(rows[..n], name, i);
        }
      }
    }
  }

  /** Under which key a procedure is cached. */
  function CacheKey(dbName: string, procedureName: string): string {
    Text.ToUpper(dbName + "." + procedureName)
  }

  /** The type of an argument in a cache with these entries. */
  function Lookup(entries: map<string, Entry>, key: string, argument: string): Option<ArgType> {
    if key in entries && argument in entries[key].arguments then Some(entries[key].arguments[argument]) else None
  }

  /** Asked under `key`, the cache answers for every argument with the type in its last row, and with nothing
      exactly when no row has it. */
  ghost predicate AnswersFor(entries: map<string, Entry>, key: string, rows: seq<Row>) {
    && (forall name, i | 0 <= i < |rows| && IsLastRow(rows, name, i) ::
          Lookup(entries, key, name) == Some(rows[i].argType))
    && (forall name :: Lookup(entries, key, name) == None <==> forall row <- rows :: row.name != name)
  }

  lemma EntryAnswers(entries: map<string, Entry>, key: string, rows: seq<Row>)
    requires key in entries && entries[key].arguments == ArgsOf(rows)
    ensures AnswersFor(entries, key, rows)
  {
    forall name, i | 0 <= i < |rows| && IsLastRow(rows, name, i)
      ensures Lookup(entries, key, name) == Some(rows[i].argType)
    {
      LastRowCounts(rows, name);
    }
    forall name ensures Lookup(entries, key, name) == None <==> forall row <- rows :: row.name != name {
      LastRowCounts(rows, name);
    }
  }

  class Argument {
    var dataType: int
    var dataTypeName: string

    constructor ()
    {
      dataType, dataTypeName := 0, "";
    }

    function Value(): ArgType
      reads this
    {
      ArgType(dataType, dataTypeName)
    }
  }

  class Procedure {
    var timestamp: nat
    var packageName: string
    var arguments: map<string, Argument>

    constructor ()
      ensures arguments == map[]
    {
      timestamp, packageName, arguments := 0, "", map[];
    }

    /** No two arguments share a cell. */
    ghost predicate Injective()
      reads this
    {
      forall m, n | m in arguments && n in arguments && m != n :: arguments[m] != arguments[n]
    }

    ghost function Arguments(): map<string, ArgType>
      reads this, arguments.Values
    {
      map n | n in arguments :: arguments[n].Value()
    }

    ghost function Value(): Entry
      reads this, arguments.Values
    {
      Entry(timestamp, packageName, Arguments())
    }
  }

  lemma MapUpdated(m: map<string, Entry>, u: map<string, Entry>, k: string, v: Entry)
    requires u.Keys == m.Keys + {k} && u[k] == v
    requires forall l | l in m && l != k :: u[l] == m[l]
    ensures u == m[k := v]
  {
  }

  class Cache {
    var plist: map<string, Procedure>
    var aFree: set<Argument>

    /** Every cell that some cached argument uses. */
    ghost function Cells(): set<Argument>
      reads this, plist.Values
    {
      set k, a | k in plist && a in plist[k].arguments.Values :: a
    }

    /** Entries are not shared, and no cell is used twice, or used and pooled at once. */
    ghost predicate Valid()
      reads this, plist.Values
    {
      && (forall k, l | k in plist && l in plist && k != l ::
            plist[k] != plist[l] && plist[k].arguments.Values !! plist[l].arguments.Values)
      && (forall k <- plist :: plist[k].Injective() && plist[k].arguments.Values !! aFree)
    }

    ghost function Contents(): map<string, Entry>
      reads this, plist.Values, Cells()
    {
      map k | k in plist :: plist[k].Value()
    }

    constructor ()
      ensures Valid() && Contents() == map[]
    {
      plist, aFree := map[], {};
    }

    /** sync.Pool: some pooled cell, or a new one. */
    method Get() returns (a: Argument)
      modifies this`aFree
      ensures aFree == old(aFree) - {a}
      ensures a in old(aFree) || fresh(a)
    {
      if * {
        a := new Argument();
      } else if aFree == {} {
        a := new Argument();
      } else {
        a :| a in aFree;
        aFree := aFree - {a};
      }
    }

    method ClearArguments(p: Procedure)
      modifies this`aFree, p`arguments
      ensures p.arguments == map[] && aFree == old(aFree) + old(p.arguments.Values)
    {
      while p.arguments != map[]
        invariant aFree + p.arguments.Values == old(aFree) + old(p.arguments.Values)
        decreases p.arguments.Keys
      {
        var k :| k in p.arguments;
        ValuesWithout(p.arguments, k);
        aFree := aFree + {p.arguments[k]};
        p.arguments := p.arguments - {k};
      }
    }

    /** Enters one row into a recycled or new cell. */
    method PutArgument(p: Procedure, row: Row)
      requires p.Injective() && p.arguments.Values !! aFree
      modifies this`aFree, p`arguments, aFree
      ensures p.Injective() && p.arguments.Values !! aFree && aFree <= old(aFree)
      ensures p.Arguments() == old(p.Arguments())[row.name := row.argType]
      ensures forall a <- p.arguments.Values :: a in old(p.arguments.Values) || a in old(aFree) || fresh(a)
    {
      var a := Get();
      a.dataType := row.argType.dataType;
      a.dataTypeName := row.argType.dataTypeName;
      p.arguments := p.arguments[row.name := a];
    }

    method FillArguments(p: Procedure, rows: seq<Row>)
      requires p.arguments == map[]
      modifies this`aFree, p`arguments, aFree
      ensures p.Injective() && p.Arguments() == ArgsOf(rows)
      ensures aFree <= old(aFree) && p.arguments.Values !! aFree
      ensures forall a <- p.arguments.Values :: a in old(aFree) || fresh(a)
    {
      for i := 0 to |rows|
        invariant p.Injective() && p.Arguments() == ArgsOf(rows[..i])
        invariant aFree <= old(aFree) && p.arguments.Values !! aFree
        invariant forall a <- p.arguments.Values :: a in old(aFree) || fresh(a)
      {
        PutArgument(p, rows[i]);
        assert rows[..i + 1][..i] == rows[..i];
      }
      assert rows[..|rows|] == rows;
    }

    /** The entry for `key`, made or emptied. */
    method EntryFor(key: string) returns (p: Procedure)
      requires Valid()
      modifies this, plist.Values
      ensures Valid() && plist == old(plist)[key := p] && p.arguments == map[]
      ensures if key in old(plist) then p == old(plist[key]) else fresh(p)
      ensures aFree == old(aFree) + if key in old(plist) then old(plist[key].arguments.Values) else {}
      ensures forall k | k in old(plist) && k != key :: plist[k].Value() == old(plist[k].Value())
    {
      if key !in plist {
        p := new Procedure();
        plist := plist[key := p];
      } else {
        p := plist[key];
        ClearArguments(p);
      }
    }

    /** Refilling the entry of `key` out of the pool leaves the other entries alone. */
    method Refill(key: string, p: Procedure, timestamp: nat, packageName: string, rows: seq<Row>)
      requires Valid() && key in plist && plist[key] == p && p.arguments == map[]
      modifies this`aFree, p, aFree
      ensures Valid() && p.Value() == Entry(timestamp, packageName, ArgsOf(rows))
      ensures forall k | k in plist && k != key :: plist[k].Value() == old(plist[k].Value())
    {
      p.timestamp := timestamp;
      p.packageName := packageName;
      FillArguments(p, rows);
      forall k | k in plist && k != key
        ensures plist[k].arguments.Values !! p.arguments.Values && plist[k].arguments.Values !! aFree
        ensures plist[k].Value() == old(plist[k].Value())
      {
        assert plist[k].arguments.Values !! old(aFree);
        assert plist[k] != p && plist[k].arguments == old(plist[k].arguments);
      }
    }

    /** What `Describe` does with the fetched rows under the write lock. */
    method Store(key: string, timestamp: nat, packageName: string, rows: seq<Row>)
      requires Valid()
      modifies this, plist.Values, Cells(), aFree
      ensures Valid()
      ensures Contents() == old(Contents())[key := Entry(timestamp, packageName, ArgsOf(rows))]
      ensures AnswersFor(Contents(), key, rows)
    {
      ghost var was := Contents();
      StoreInPlace(key, timestamp, packageName, rows);
      MapUpdated(was, Contents(), key, Entry(timestamp, packageName, ArgsOf(rows)));
      EntryAnswers(Contents(), key, rows);
    }

    method StoreInPlace(key: string, timestamp: nat, packageName: string, rows: seq<Row>)
      requires Valid()
      modifies this, plist.Values, Cells(), aFree
      ensures Valid() && plist.Keys == old(plist.Keys) + {key}
      ensures plist[key].Value() == Entry(timestamp, packageName, ArgsOf(rows))
      ensures forall k | k in old(plist) && k != key :: plist[k].Value() == old(plist[k].Value())
    {
      var p := EntryFor(key);
      Refill(key, p, timestamp, packageName, rows);
    }

    method ProcedureInfo(dbName: string, procedureName: string) returns (r: Option<(nat, string)>)
      requires Valid()
      ensures var key := Text.ToUpper(dbName + "." + procedureName);
        r == if key in Contents() then Some((Contents()[key].timestamp, Contents()[key].packageName)) else None
    {
      var key := CacheKey(dbName, procedureName);
      if key in plist {
        return Some((plist[key].timestamp, plist[key].packageName));
      }
      return None;
    }

    /** Arguments are kept under the names the database gives, and asked for in upper case. */
    method ArgumentInfo(dbName: string, procedureName: string, argumentName: string) returns (r: Option<ArgType>)
      requires Valid()
      ensures r == Lookup(Contents(), Text.ToUpper(dbName + "." + procedureName), Text.ToUpper(argumentName))
    {
      var key, name := CacheKey(dbName, procedureName), Text.ToUpper(argumentName);
      if key in plist {
        var p := plist[key];
        if name in p.arguments {
          var a := p.arguments[name];
          return Some(ArgType(a.dataType, a.dataTypeName));
        }
      }
      return None;
    }
  }
}
