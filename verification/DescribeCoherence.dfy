/** What the describe cache guarantees about every interleaving, and the exact limits of it. */
module DescribeCoherence {
  import opened DescribeStore
  import opened DescribeCache
  import Text

  /** The entry of `name` is the current version's, timestamp, package and arguments. */
  predicate Agrees(n: Naming, s: State, name: Name) {
    var h := History(s, n.resolve(name));
    && h != [] && n.key(name) in s.plist
    && s.plist[n.key(name)] == Entry(Last(h).time, Last(h).packageName, ArgsOf(Last(h).rows))
  }

  /** The entry of `name` is never newer than the database, and when its timestamp is the database's, so
      are its package and its arguments. */
  predicate Coherent(n: Naming, s: State, name: Name) {
    var h := History(s, n.resolve(name));
    n.key(name) in s.plist ==>
      && h != [] && s.plist[n.key(name)].timestamp <= Last(h).time
      && (s.plist[n.key(name)].timestamp == Last(h).time ==> Agrees(n, s, name))
  }

  /** Names in use that are cached under one key mean one database object. */
  ghost predicate KeySeparates(n: Naming) {
    forall a, b | n.used(a) && n.used(b) && n.key(a) == n.key(b) :: n.resolve(a) == n.resolve(b)
  }

  /** Whatever describers and DDL have raced, if keys separate objects, entries are coherent. */
  lemma CacheCoherence(n: Naming, s: State, name: Name)
    requires Reachable(n, s) && KeySeparates(n) && n.used(name)
    ensures Coherent(n, s, name)
  {
    ReachableInv(n, s);
    if n.key(name) in s.plist {
      var h, e := History(s, n.resolve(name)), s.plist[n.key(name)];
      assert EntryOk(n, s, n.key(name));
      assert n.resolve(s.owners[n.key(name)]) == n.resolve(name);
      TakenIsCoherent(h, e);
    }
  }

  lemma TakenIsCoherent(h: seq<Version>, e: Entry)
    requires TimesIncrease(h) && TakenFrom(h, e)
    ensures h != [] && e.timestamp <= Last(h).time
    ensures e.timestamp == Last(h).time ==> e == Entry(Last(h).time, Last(h).packageName, ArgsOf(Last(h).rows))
  {
    var i, j :| Taken(h, e, i, j);
    assert i < |h| - 1 ==> h[i].time < h[|h| - 1].time;
  }

  /** The arguments of every cached entry are those of one version of its object at least as new as
      its timestamp, or none at all if the object was replaced while they were being fetched. */
  lemma EntriesAreVersions(n: Naming, s: State, key: string)
    requires Reachable(n, s) && key in s.plist
    ensures key in s.owners && n.key(s.owners[key]) == key
    ensures TakenFrom(History(s, n.resolve(s.owners[key])), s.plist[key])
    ensures var h := History(s, n.resolve(s.owners[key]));
      exists j :: (0 <= j < |h| && s.plist[key].timestamp <= h[j].time
        && (s.plist[key].arguments == ArgsOf(h[j].rows) || s.plist[key].arguments == map[]))
  {
    ReachableInv(n, s);
    assert EntryOk(n, s, key);
    var h := History(s, n.resolve(s.owners[key]));
    assert TimesIncrease(h);
    var i, j :| Taken(h, s.plist[key], i, j);
    assert s.plist[key].timestamp <= h[j].time;
  }

  /** A call of `Describe` for `name` that nothing interrupts and in which no query fails. */
  function Solo(n: Naming, s: State, name: Name): State
    requires n.used(name)
  {
    SoloWith(n, s, name, true, true)
  }

  /** One whose queries succeed or fail as given. */
  function SoloWith(n: Naming, s: State, name: Name, shortOk: bool, longOk: bool): State
    requires n.used(name)
  {
    var d := |s.describers|;
    var asked := Apply(n, Apply(n, Apply(n, s, Call(name)), ReadEntry(d)), ShortQuery(d, shortOk));
    if !asked.describers[d].pc.FetchRows? then asked
    else
      var fetched := Apply(n, asked, LongQuery(d, longOk));
      if fetched.describers[d].pc.StoreRows? then Apply(n, fetched, StoreEntry(d)) else fetched
  }

  /** There is an entry for the name that is not older than the database. */
  predicate Fresh(n: Naming, s: State, name: Name) {
    var h := History(s, n.resolve(name));
    h != [] && n.key(name) in s.plist && s.plist[n.key(name)].timestamp >= Last(h).time
  }

  /** What an uninterrupted Describe reports and does: it succeeds exactly when the short query succeeds and finds
      the procedure, and either the entry was fresh or the long query succeeds too. Then, if the entry was not
      fresh, the cache answers for the current version; in every other case it stays as it was. */
  lemma DescribeReports(n: Naming, s: State, name: Name, shortOk: bool, longOk: bool)
    requires n.used(name) && (History(s, n.resolve(name)) != [] ==> Last(History(s, n.resolve(name))).time > 0)
    ensures var h, key := History(s, n.resolve(name)), n.key(name);
      var t, d := SoloWith(n, s, name, shortOk, longOk), |s.describers|;
      && |t.describers| == d + 1
      && t.describers[d].pc == Finished(shortOk && h != [] && (Fresh(n, s, name) || longOk))
      && if shortOk && longOk && h != [] && !Fresh(n, s, name)
         then t.plist.Keys == s.plist.Keys + {key} && (forall k <- s.plist | k != key :: t.plist[k] == s.plist[k])
              && t.plist[key].timestamp == Last(h).time && t.plist[key].packageName == Last(h).packageName
              && AnswersFor(t.plist, key, Last(h).rows)
         else t.plist == s.plist
  {
    var h, key, d := History(s, n.resolve(name)), n.key(name), |s.describers|;
    var t := SoloWith(n, s, name, shortOk, longOk);
    var asked := Apply(n, Apply(n, Apply(n, s, Call(name)), ReadEntry(d)), ShortQuery(d, shortOk));
    assert asked.plist == s.plist && History(asked, n.resolve(name)) == h;
    assert asked.describers[d].pc == AnswerShort(h, if key in s.plist then s.plist[key].timestamp else 0, shortOk);
    if shortOk && longOk && h != [] && !Fresh(n, s, name) {
      assert t.plist == s.plist[key := Entry(Last(h).time, Last(h).packageName, ArgsOf(Last(h).rows))];
      EntryAnswers(t.plist, key, Last(h).rows);
    }
  }

  /** So if keys separate objects, in every reachable state a Describe that nothing interrupts and that reports
      success leaves a cache that answers for the current version. */
  lemma ReportedSuccess(n: Naming, s: State, name: Name, shortOk: bool, longOk: bool)
    requires Reachable(n, s) && KeySeparates(n) && n.used(name)
    requires SoloWith(n, s, name, shortOk, longOk).describers[|s.describers|].pc == Finished(true)
    ensures var h := History(s, n.resolve(name));
      h != [] && AnswersFor(SoloWith(n, s, name, shortOk, longOk).plist, n.key(name), Last(h).rows)
  {
    ReachableInv(n, s);
    var h := History(s, n.resolve(name));
    assert TimesIncrease(h);
    DescribeReports(n, s, name, shortOk, longOk);
    if Fresh(n, s, name) {
      CacheCoherence(n, s, name);
      EntryAnswers(s.plist, n.key(name), Last(h).rows);
    }
  }

  lemma SoloIsRun(n: Naming, s: State, name: Name)
    requires Reachable(n, s) && n.used(name)
    ensures Reachable(n, Solo(n, s, name))
  {
    var d := |s.describers|;
    Reach(n, s, Call(name));
    var s1 := Apply(n, s, Call(name));
    Reach(n, s1, ReadEntry(d));
    var s2 := Apply(n, s1, ReadEntry(d));
    Reach(n, s2, ShortQuery(d, true));
    var s3 := Apply(n, s2, ShortQuery(d, true));
    if s3.describers[d].pc.FetchRows? {
      Reach(n, s3, LongQuery(d, true));
      Reach(n, Apply(n, s3, LongQuery(d, true)), StoreEntry(d));
    }
  }

  /** In any state at all, an uninterrupted Describe of an existing procedure leaves the entry in
      agreement exactly when there was none, or an older one, or one that agreed already. */
  lemma SoloDescribe(n: Naming, s: State, name: Name)
    requires n.used(name) && History(s, n.resolve(name)) != [] && Last(History(s, n.resolve(name))).time > 0
    ensures Agrees(n, Solo(n, s, name), name) <==>
      (n.key(name) in s.plist ==>
         s.plist[n.key(name)].timestamp < Last(History(s, n.resolve(name))).time || Agrees(n, s, name))
  {
    var h := History(s, n.resolve(name));
    var d := |s.describers|;
    var asked := Apply(n, Apply(n, Apply(n, s, Call(name)), ReadEntry(d)), ShortQuery(d, true));
    assert History(asked, n.resolve(name)) == h;
  }

  /** So if keys separate objects, in every reachable state it does. */
  lemma SoloDescribeAgrees(n: Naming, s: State, name: Name)
    requires Reachable(n, s) && KeySeparates(n) && n.used(name) && History(s, n.resolve(name)) != []
    ensures Agrees(n, Solo(n, s, name), name)
  {
    ReachableInv(n, s);
    assert TimesIncrease(History(s, n.resolve(name)));
    CacheCoherence(n, s, name);
    SoloDescribe(n, s, name);
  }

  lemma {:induction false} LeadsOneMore(n: Naming, s: State, es: seq<Event>, t: State, e: Event)
    requires Leads(n, s, es, t) && Enabled(n, t, e)
    ensures Leads(n, s, es + [e], Apply(n, t, e))
    decreases |es|
  {
    if es == [] {
      assert (es + [e])[1..] == [];
    } else {
      LeadsOneMore(n, Apply(n, s, es[0]), es[1..], t, e);
      assert (es + [e])[1..] == es[1..] + [e];
    }
  }

  lemma Reach(n: Naming, s: State, e: Event)
    requires Reachable(n, s) && Enabled(n, s, e)
    ensures Reachable(n, Apply(n, s, e))
  {
    var start := State(map[], map[], map[], []);
    var es :| Leads(n, start, es, s);
    LeadsOneMore(n, start, es, s, e);
  }

  // ---------- The exact condition ----------

  /** When two names in use share a key but not an object, an uninterrupted Describe of the one can leave
      the entry with the arguments of the other, and the entry can be newer than the database. */
  lemma SharedKeyFails(n: Naming, a: Name, b: Name) returns (s: State)
    requires n.used(a) && n.used(b) && n.key(a) == n.key(b) && n.resolve(a) != n.resolve(b)
    ensures Reachable(n, s) && History(s, n.resolve(b)) != []
    ensures !Agrees(n, Solo(n, s, b), b) && !Coherent(n, s, b)
  {
    var start := State(map[], map[], map[], []);
    assert Leads(n, start, [], start);
    var newer := Ddl(n.resolve(a), Version(2, 0, "", [Row("A", ArgType(1, "VARCHAR2"))]));
    var older := Ddl(n.resolve(b), Version(1, 1, "", []));
    Reach(n, start, newer);
    var s1 := Apply(n, start, newer);
    Reach(n, s1, older);
    var s2 := Apply(n, s1, older);
    SoloIsRun(n, s2, a);
    s := Solo(n, s2, a);
    assert n.key(b) in s.plist && s.plist[n.key(b)].timestamp == 2;
    SoloDescribe(n, s, b);
  }

  ghost predicate AlwaysCoherent(n: Naming) {
    forall s, name | Reachable(n, s) && n.used(name) :: Coherent(n, s, name)
  }

  ghost predicate SoloAlwaysAgrees(n: Naming) {
    forall s, name | Reachable(n, s) && n.used(name) && History(s, n.resolve(name)) != [] ::
      Agrees(n, Solo(n, s, name), name)
  }

  /** Entries are always coherent, and an uninterrupted Describe always leaves its entry in agreement,
      exactly when names in use that share a key mean the same object. */
  lemma CoherentExactly(n: Naming)
    ensures AlwaysCoherent(n) <==> KeySeparates(n)
    ensures SoloAlwaysAgrees(n) <==> KeySeparates(n)
  {
    if KeySeparates(n) {
      forall s, name | Reachable(n, s) && n.used(name) ensures Coherent(n, s, name) {
        CacheCoherence(n, s, name);
      }
      forall s, name | Reachable(n, s) && n.used(name) && History(s, n.resolve(name)) != []
        ensures Agrees(n, Solo(n, s, name), name)
      {
        SoloDescribeAgrees(n, s, name);
      }
    } else {
      var a, b :| n.used(a) && n.used(b) && n.key(a) == n.key(b) && n.resolve(a) != n.resolve(b);
      var s := SharedKeyFails(n, a, b);
    }
  }

  // ---------- The cache key ----------

  /** The key the code uses: the user has no part in it. */
  function SourceKey(name: Name): string {
    CacheKey(name.db, name.proc)
  }

  /** The same connect string and procedure but for case, whoever the users are. */
  predicate SameButCase(a: Name, b: Name) {
    Text.ToUpper(a.db) == Text.ToUpper(b.db) && Text.ToUpper(a.proc) == Text.ToUpper(b.proc)
  }

  /** `b` is `a` with a dot of its procedure name moved into the connect string, but for case. */
  predicate DotMoved(a: Name, b: Name) {
    && |a.db| < |b.db| && b.db[|a.db|] == '.'
    && Text.ToUpper(b.db[..|a.db|]) == Text.ToUpper(a.db)
    && Text.ToUpper(a.proc) == Text.ToUpper(b.db[|a.db| + 1..] + "." + b.proc)
  }

  lemma UpperKey(name: Name)
    ensures SourceKey(name) == Text.ToUpper(name.db) + "." + Text.ToUpper(name.proc)
  {
    Text.ToUpperOfConcat(name.db + ".", name.proc);
    Text.ToUpperOfConcat(name.db, ".");
    assert Text.ToUpper(".") == ".";
  }

  /** Two names share a key exactly when they differ in case and user only, or by where the connect string
      ends. */
  lemma SharedKeys(a: Name, b: Name)
    ensures SourceKey(a) == SourceKey(b) <==> SameButCase(a, b) || DotMoved(a, b) || DotMoved(b, a)
  {
    UpperKey(a);
    UpperKey(b);
    Text.ToUpperAt(a.db);
    Text.ToUpperAt(b.db);
    if |a.db| == |b.db| {
      var x, y, u, v := Text.ToUpper(a.db), Text.ToUpper(a.proc), Text.ToUpper(b.db), Text.ToUpper(b.proc);
      assert x + "." + y == x + ("." + y) && u + "." + v == u + ("." + v);
      EqualHeads(x, "." + y, u, "." + v);
      EqualHeads(".", y, ".", v);
    } else if |a.db| < |b.db| {
      ShorterConnect(a, b);
    } else {
      ShorterConnect(b, a);
    }
  }

  lemma EqualHeads(x: string, y: string, u: string, v: string)
    requires |x| == |u|
    ensures x + y == u + v <==> x == u && y == v
  {
    assert (x + y)[..|x|] == x && (x + y)[|x|..] == y && (u + v)[..|u|] == u && (u + v)[|u|..] == v;
  }

  lemma KeyAround(b: Name, k: nat)
    requires k < |b.db|
    ensures SourceKey(b) ==
      Text.ToUpper(b.db[..k]) + (Text.ToUpper([b.db[k]]) + Text.ToUpper(b.db[k + 1..] + "." + b.proc))
  {
    var head, dot, rest := b.db[..k], [b.db[k]], b.db[k + 1..] + "." + b.proc;
    assert b.db + "." + b.proc == head + (dot + rest);
    Text.ToUpperOfConcat(head, dot + rest);
    Text.ToUpperOfConcat(dot, rest);
  }

  lemma KeyFromConnect(a: Name)
    ensures SourceKey(a) == Text.ToUpper(a.db) + ("." + Text.ToUpper(a.proc))
  {
    UpperKey(a);
    assert Text.ToUpper(a.db) + "." + Text.ToUpper(a.proc) == Text.ToUpper(a.db) + ("." + Text.ToUpper(a.proc));
  }

  lemma ShorterConnect(a: Name, b: Name)
    requires |a.db| < |b.db|
    ensures SourceKey(a) == SourceKey(b) <==> DotMoved(a, b)
    ensures !SameButCase(a, b) && !DotMoved(b, a)
  {
    var k := |a.db|;
    var head, dot, rest := b.db[..k], [b.db[k]], b.db[k + 1..] + "." + b.proc;
    KeyAround(b, k);
    KeyFromConnect(a);
    Text.ToUpperAt(a.db);
    Text.ToUpperAt(b.db);
    Text.ToUpperAt(head);
    Text.ToUpperAt(dot);
    EqualHeads(Text.ToUpper(a.db), "." + Text.ToUpper(a.proc), Text.ToUpper(head),
               Text.ToUpper(dot) + Text.ToUpper(rest));
    EqualHeads(".", Text.ToUpper(a.proc), Text.ToUpper(dot), Text.ToUpper(rest));
    assert Text.ToUpper(dot) == [Text.UpperChar(b.db[k])];
  }

  /** With the code's own key, entries are always coherent exactly when names in use that differ in case
      and user only, or by where the connect string ends, mean the same object. */
  lemma SourceKeyExactly(n: Naming)
    requires n.key == SourceKey
    ensures AlwaysCoherent(n) && SoloAlwaysAgrees(n) <==>
      forall a, b | n.used(a) && n.used(b) && (SameButCase(a, b) || DotMoved(a, b)) :: n.resolve(a) == n.resolve(b)
  {
    CoherentExactly(n);
    forall a, b ensures SourceKey(a) == SourceKey(b) <==> SameButCase(a, b) || DotMoved(a, b) || DotMoved(b, a) {
      SharedKeys(a, b);
    }
  }

  /** If no connect string in use has a dot, where it ends is no question. */
  lemma DotFreeExactly(n: Naming)
    requires n.key == SourceKey && forall a | n.used(a) :: '.' !in a.db
    ensures AlwaysCoherent(n) && SoloAlwaysAgrees(n) <==>
      forall a, b | n.used(a) && n.used(b) && SameButCase(a, b) :: n.resolve(a) == n.resolve(b)
  {
    SourceKeyExactly(n);
    forall a, b | n.used(a) && n.used(b) ensures !DotMoved(a, b) {
      assert |a.db| < |b.db| ==> b.db[|a.db|] in b.db;
    }
  }

  /** Two names in use that mean different objects; everything else means the first. */
  function Two(a: Name, b: Name): Naming {
    Naming(SourceKey, (m: Name) => if m == b then 1 else 0, (m: Name) => m == a || m == b)
  }

  /** An uninterrupted Describe of `name` leaves the arguments of another object. */
  ghost predicate Clash(n: Naming, s: State, name: Name) {
    && n.key == SourceKey && Reachable(n, s) && n.used(name) && History(s, n.resolve(name)) != []
    && !Agrees(n, Solo(n, s, name), name) && !Coherent(n, s, name)
  }

  /** The condition fails for two users with a procedure of their own each. */
  lemma UsersClash() returns (s: State)
    ensures Clash(Two(Name("U", "X", "P"), Name("V", "X", "P")), s, Name("V", "X", "P"))
  {
    s := SharedKeyFails(Two(Name("U", "X", "P"), Name("V", "X", "P")), Name("U", "X", "P"), Name("V", "X", "P"));
  }

  /** It fails for two quoted names that differ in case. */
  lemma QuotedNamesClash() returns (s: State)
    ensures Clash(Two(Name("U", "X", "\"P\""), Name("U", "X", "\"p\"")), s, Name("U", "X", "\"p\""))
  {
    var a, b := Name("U", "X", "\"P\""), Name("U", "X", "\"p\"");
    UpperKey(a);
    UpperKey(b);
    QuotedUpper();
    s := SharedKeyFails(Two(a, b), a, b);
  }

  /** And it fails for a connect string with a dot. */
  lemma DotsClash() returns (s: State)
    ensures Clash(Two(Name("U", "X", "Y.Z"), Name("U", "X.Y", "Z")), s, Name("U", "X.Y", "Z"))
  {
    var a, b := Name("U", "X", "Y.Z"), Name("U", "X.Y", "Z");
    assert a.db + "." + a.proc == "X.Y.Z" == b.db + "." + b.proc;
    s := SharedKeyFails(Two(a, b), a, b);
  }

  lemma QuotedUpper()
    ensures Text.ToUpper("\"p\"") == Text.ToUpper("\"P\"")
  {
    assert "\"p\""[1..] == "p\"" && "p\""[1..] == "\"";
    assert "\"P\""[1..] == "P\"" && "P\""[1..] == "\"";
  }
}
