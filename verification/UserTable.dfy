/**
 The user table: a map from upper-cased names to heap cells, refilled in place from a JSON buffer
 with cells recycled through a pool. The case mapping and the JSON decoder are parameters.
 */
module UserTable {
  import opened Collections
  import opened Bytes

  datatype Info = Info(isSpecial: bool, grpID: int)

  datatype User = User(name: string, info: Info)

  /** The table that a list of users stands for: for each upper-cased name, its last user. */
  function Table(upper: string -> string, users: seq<User>): map<string, Info> {
    if users == [] then map[]
    else
      var last := users[|users| - 1];
      Table(upper, users[..|users| - 1])[upper(last.name) := last.info]
  }

  /** User `i` is the last one whose name has the given upper-cased form. */
  predicate IsLast(upper: string -> string, users: seq<User>, key: string, i: nat) {
    && i < |users| && upper(users[i].name) == key
    && forall j | i < j < |users| :: upper(users[j].name) != key
  }

  lemma {:induction false} TableIsLastWins(upper: string -> string, users: seq<User>, key: string)
    ensures key in Table(upper, users) <==> exists i :: 0 <= i < |users| && upper(users[i].name) == key
    ensures forall i | 0 <= i < |users| && IsLast(upper, users, key, i) :: Table(upper, users)[key] == users[i].info
  {
    if users != [] {
      var n := |users| - 1;
      var init := users[..n];
      TableIsLastWins(upper, init, key);
      assert users == init + [users[n]];
      if upper(users[n].name) != key {
        forall i | 0 <= i < |users| && IsLast(upper, users, key, i)
          ensures Table(upper, users)[key] == users[i].info
        {
          assert IsLast(upper, init, key, i);
        }
        if i :| 0 <= i < |users| && upper(users[i].name) == key {
          assert init[i] == users[i];
        }
      }
    }
  }

  /** Go's `copy`: overwrites as much of `dst` as both have room for, and never grows it. */
  function CopyInto(dst: Bytes, src: Bytes): (r: Bytes)
    ensures |r| == |dst|
  {
    if |src| <= |dst| then src + dst[|src|..] else src[..|dst|]
  }

  class UserInfo {
    var isSpecial: bool
    var grpID: int

    constructor (isSpecial: bool, grpID: int)
      ensures Value() == Info(isSpecial, grpID)
    {
      this.isSpecial, this.grpID := isSpecial, grpID;
    }

    function Value(): Info
      reads this
    {
      Info(isSpecial, grpID)
    }
  }

  class Users {
    const upper: string -> string
    const decode: Bytes -> seq<User>
    var ulist: map<string, UserInfo>
    var usersFree: set<UserInfo>
    var prev: Bytes

    /** No cell is live under two names, and none is both live and pooled. */
    ghost predicate Valid()
      reads this
    {
      && prev == []
      && (forall k, l | k in ulist && l in ulist && k != l :: ulist[k] != ulist[l])
      && (forall k <- ulist :: ulist[k] !in usersFree)
    }

    ghost function Contents(): map<string, Info>
      reads this, ulist.Values
    {
      map k | k in ulist :: ulist[k].Value()
    }

    constructor (upper: string -> string, decode: Bytes -> seq<User>)
      ensures Valid() && Contents() == map[]
      ensures this.upper == upper && this.decode == decode
      ensures fresh(ulist.Values) && fresh(usersFree)
    {
      this.upper, this.decode := upper, decode;
      ulist, usersFree, prev := map[], {}, [];
    }

    /** sync.Pool: some pooled cell, or a new one. */
    method Get() returns (u: UserInfo)
      requires Valid()
      modifies this`usersFree
      ensures usersFree == old(usersFree) - {u}
      ensures u in old(usersFree) || fresh(u)
    {
      if * {
        u := new UserInfo(false, 0);
      } else if usersFree == {} {
        u := new UserInfo(false, 0);
      } else {
        u :| u in usersFree;
        usersFree := usersFree - {u};
      }
    }

    /** Returns every live cell to the pool and empties the table. */
    method Clear()
      requires Valid()
      modifies this`ulist, this`usersFree
      ensures Valid() && ulist == map[] && usersFree == old(usersFree) + old(ulist.Values)
    {
      while ulist != map[]
        invariant Valid()
        invariant usersFree + ulist.Values == old(usersFree) + old(ulist.Values)
        decreases ulist.Keys
      {
        var k :| k in ulist;
        ValuesWithout(ulist, k);
        usersFree := usersFree + {ulist[k]};
        ulist := ulist - {k};
      }
    }

    /** An update with a non-empty buffer replaces the table by that of the decoded users; an empty
        buffer changes nothing, because the remembered buffer `prev` never grows beyond nothing. */
    method UpdateUsers(users: Bytes)
      requires Valid()
      modifies this, ulist.Values, usersFree
      ensures Valid()
      ensures Contents() == if users == [] then old(Contents()) else Table(upper, decode(users))
      ensures forall u | u in ulist.Values + usersFree :: u in old(ulist.Values + usersFree) || fresh(u)
    {
      var needToParse := prev != users;
      if needToParse {
        prev := CopyInto(prev, users);
        Clear();
        if |users| == 0 {
          return;
        }
        var t := decode(users);
        Fill(t);
      }
    }

    /** Enters one user into a recycled or new cell. */
    method Put(user: User)
      requires Valid()
      modifies this`ulist, this`usersFree, usersFree
      ensures Valid() && Contents() == old(Contents())[upper(user.name) := user.info]
      ensures forall u | u in ulist.Values + usersFree :: u in old(ulist.Values + usersFree) || fresh(u)
      ensures usersFree <= old(usersFree)
    {
      var u := Get();
      u.isSpecial := user.info.isSpecial;
      u.grpID := user.info.grpID;
      ulist := ulist[upper(user.name) := u];
    }

    method Fill(t: seq<User>)
      requires Valid() && ulist == map[]
      modifies this`ulist, this`usersFree, usersFree
      ensures Valid() && Contents() == Table(upper, t)
      ensures forall u | u in ulist.Values + usersFree :: u in old(usersFree) || fresh(u)
    {
      for k := 0 to |t|
        invariant Valid() && Contents() == Table(upper, t[..k])
        invariant usersFree <= old(usersFree)
        invariant forall u | u in ulist.Values + usersFree :: u in old(usersFree) || fresh(u)
      {
        Put(t[k]);
        assert t[..k + 1][..k] == t[..k];
      }
      assert t[..|t|] == t;
    }

    method GetUserInfo(name: string) returns (isSpecial: bool, grpID: int, ok: bool)
      requires Valid()
      ensures ok <==> upper(name) in Contents()
      ensures ok ==> Contents()[upper(name)] == Info(isSpecial, grpID)
      ensures !ok ==> !isSpecial && grpID == -1
    {
      if upper(name) !in ulist {
        return false, -1, false;
      }
      var u := ulist[upper(name)];
      return u.isSpecial, u.grpID, true;
    }
  }

  // ---------- Any number of updates ----------

  /** What UpdateUsers makes of the table. */
  function Updated(upper: string -> string, decode: Bytes -> seq<User>,
                   table: map<string, Info>, buffer: Bytes): map<string, Info> {
    if buffer == [] then table else Table(upper, decode(buffer))
  }

  function UpdatedAll(upper: string -> string, decode: Bytes -> seq<User>,
                      table: map<string, Info>, buffers: seq<Bytes>): map<string, Info>
    decreases |buffers|
  {
    if buffers == [] then table
    else UpdatedAll(upper, decode, Updated(upper, decode, table, buffers[0]), buffers[1..])
  }

  /** After any updates a name is looked up in the last non-empty buffer alone: it is found exactly
      when that buffer has a user of that name, and the last such user is returned. */
  lemma {:induction false} LastNonEmptyBufferWins(
      upper: string -> string, decode: Bytes -> seq<User>, table: map<string, Info>,
      buffers: seq<Bytes>, b: nat, name: string)
    requires b < |buffers| && buffers[b] != [] && forall c | b < c < |buffers| :: buffers[c] == []
    ensures var users, result := decode(buffers[b]), UpdatedAll(upper, decode, table, buffers);
      && (upper(name) in result <==> exists i :: 0 <= i < |users| && upper(users[i].name) == upper(name))
      && (forall i | 0 <= i < |users| && IsLast(upper, users, upper(name), i) :: result[upper(name)] == users[i].info)
    decreases |buffers|
  {
    if b == 0 {
      TableIsLastWins(upper, decode(buffers[0]), upper(name));
      EmptyBuffersKeep(upper, decode, Table(upper, decode(buffers[0])), buffers[1..]);
    } else {
      LastNonEmptyBufferWins(upper, decode, Updated(upper, decode, table, buffers[0]), buffers[1..], b - 1, name);
    }
  }

  lemma {:induction false} EmptyBuffersKeep(
      upper: string -> string, decode: Bytes -> seq<User>, table: map<string, Info>, buffers: seq<Bytes>)
    requires forall c | 0 <= c < |buffers| :: buffers[c] == []
    ensures UpdatedAll(upper, decode, table, buffers) == table
    decreases |buffers|
  {
    if buffers != [] { EmptyBuffersKeep(upper, decode, table, buffers[1..]); }
  }
}
