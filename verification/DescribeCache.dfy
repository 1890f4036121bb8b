/**
 The describe cache under concurrency: any number of `Describe` calls, each reading the cached
 timestamp, asking the database whether the procedure is newer, fetching its arguments and storing
 them, interleaved with each other and with changes to the procedures in the database.

 A database object is known by its history of versions, the last one being current. Which names are in
 use, which object a name resolves to, and under which key it is cached are parameters (`Naming`).
 */
module DescribeCache {
  import opened DescribeStore

  /** What a describer asks for: the database user of its session, on whom the resolution of a name
      depends, the connect string and the procedure name. */
  datatype Name = Name(user: string, db: string, proc: string)

  /** `used` are the names that are ever asked for. */
  datatype Naming = Naming(key: Name -> string, resolve: Name -> nat, used: Name -> bool)

  /** A version of a database object: its DDL time, the object's identifier (a new one when it is
      dropped and created again), its package and the rows that describe its arguments. */
  datatype Version = Version(time: nat, objectId: nat, packageName: string, rows: seq<Row>)

  datatype DescribePc =
    | ReadCache
    | AskDatabase(timestamp: nat)                                      // 0 when nothing is cached
    | FetchRows(timestamp: nat, packageName: string, objectId: nat)
    | StoreRows(timestamp: nat, packageName: string, rows: seq<Row>)
    | Finished(ok: bool)

  datatype Describer = Describer(name: Name, pc: DescribePc)

  /** `owners` is history: for which name the entry of a key was stored last. */
  datatype State = State(
    plist: map<string, Entry>, owners: map<string, Name>, db: map<nat, seq<Version>>, describers: seq<Describer>)

  datatype Event =
    | Call(name: Name)
    | ReadEntry(d: nat)
    | ShortQuery(d: nat, ok: bool)
    | LongQuery(d: nat, ok: bool)
    | StoreEntry(d: nat)
    | Ddl(obj: nat, version: Version)

  function History(s: State, obj: nat): seq<Version> {
    if obj in s.db then s.db[obj] else []
  }

  function Last(h: seq<Version>): Version
    requires h != []
  {
    h[|h| - 1]
  }

  predicate Enabled(n: Naming, s: State, e: Event) {
    match e
    case Call(name) => n.used(name)
    case ReadEntry(d) => d < |s.describers| && s.describers[d].pc.ReadCache?
    case ShortQuery(d, _) => d < |s.describers| && s.describers[d].pc.AskDatabase?
    case LongQuery(d, _) => d < |s.describers| && s.describers[d].pc.FetchRows?
    case StoreEntry(d) => d < |s.describers| && s.describers[d].pc.StoreRows?
    case Ddl(o, v) =>
      // DDL times increase, and no object is older than the zero time
      var h := History(s, o); v.time > if h == [] then 0 else Last(h).time
  }

  function Goto(s: State, d: nat, pc: DescribePc): State
    requires d < |s.describers|
  {
    s.(describers := s.describers[d := s.describers[d].(pc := pc)])
  }

  /** The database's answer to the short query: has the procedure changed since `timestamp`? */
  function AnswerShort(h: seq<Version>, timestamp: nat, ok: bool): DescribePc {
    if !ok || h == [] then Finished(false)
    else if Last(h).time <= timestamp then Finished(true)
    else FetchRows(Last(h).time, Last(h).packageName, Last(h).objectId)
  }

  /** The rows of the long query, which asks by object identifier: none once the object is gone. */
  function AnswerLong(h: seq<Version>, objectId: nat): seq<Row> {
    if h != [] && Last(h).objectId == objectId then Last(h).rows else []
  }

  function Apply(n: Naming, s: State, e: Event): State
    requires Enabled(n, s, e)
  {
    match e
    case Call(name) => s.(describers := s.describers + [Describer(name, ReadCache)])
    case ReadEntry(d) =>
      var key := n.key(s.describers[d].name);
      Goto(s, d, AskDatabase(if key in s.plist then s.plist[key].timestamp else 0))
    case ShortQuery(d, ok) =>
      var h := History(s, n.resolve(s.describers[d].name));
      Goto(s, d, AnswerShort(h, s.describers[d].pc.timestamp, ok))
    case LongQuery(d, ok) =>
      var Describer(name, FetchRows(timestamp, packageName, objectId)) := s.describers[d];
      var rows := AnswerLong(History(s, n.resolve(name)), objectId);
      Goto(s, d, if ok then StoreRows(timestamp, packageName, rows) else Finished(false))
    case StoreEntry(d) =>
      var Describer(name, StoreRows(timestamp, packageName, rows)) := s.describers[d];
      Goto(s.(plist := s.plist[n.key(name) := Entry(timestamp, packageName, ArgsOf(rows))],
              owners := s.owners[n.key(name) := name]),
           d, Finished(true))
    case Ddl(o, v) => s.(db := s.db[o := History(s, o) + [v]])
  }

  ghost predicate Leads(n: Naming, s: State, es: seq<Event>, t: State)
    decreases |es|
  {
    if es == [] then s == t else Enabled(n, s, es[0]) && Leads(n, Apply(n, s, es[0]), es[1..], t)
  }

  ghost predicate Reachable(n: Naming, s: State) {
    exists es :: Leads(n, State(map[], map[], map[], []), es, s)
  }

  // ---------- The invariant ----------

  predicate TimesIncrease(h: seq<Version>) {
    (forall i, j | 0 <= i < j < |h| :: h[i].time < h[j].time) && (forall i | 0 <= i < |h| :: h[i].time > 0)
  }

  /** `e` was read off the history `h`: timestamp and package of one version, arguments of that or a
      later one (or none, if the object was replaced in between). */
  ghost predicate TakenFrom(h: seq<Version>, e: Entry) {
    exists i, j :: Taken(h, e, i, j)
  }

  predicate Taken(h: seq<Version>, e: Entry, i: int, j: int) {
    && 0 <= i <= j < |h| && e.timestamp == h[i].time && e.packageName == h[i].packageName
    && e.arguments == if h[j].objectId == h[i].objectId then ArgsOf(h[j].rows) else map[]
  }

  ghost predicate DescriberOk(n: Naming, s: State, d: nat)
    requires d < |s.describers|
  {
    var h := History(s, n.resolve(s.describers[d].name));
    n.used(s.describers[d].name) &&
    match s.describers[d].pc
    case FetchRows(timestamp, packageName, objectId) =>
      exists i :: 0 <= i < |h| && Asked(h, i, timestamp, packageName, objectId)
    case StoreRows(timestamp, packageName, rows) => TakenFrom(h, Entry(timestamp, packageName, ArgsOf(rows)))
    case _ => true
  }

  predicate Asked(h: seq<Version>, i: int, timestamp: nat, packageName: string, objectId: nat)
    requires 0 <= i < |h|
  {
    h[i].time == timestamp && h[i].packageName == packageName && h[i].objectId == objectId
  }

  ghost predicate EntryOk(n: Naming, s: State, k: string)
    requires k in s.plist
  {
    k in s.owners && n.key(s.owners[k]) == k && n.used(s.owners[k])
    && TakenFrom(History(s, n.resolve(s.owners[k])), s.plist[k])
  }

  ghost predicate Inv(n: Naming, s: State) {
    && (forall o: nat :: TimesIncrease(History(s, o)))
    && (forall k | k in s.plist :: EntryOk(n, s, k))
    && (forall d: nat | d < |s.describers| :: DescriberOk(n, s, d))
  }

  /** Longer histories keep what was taken from shorter ones. */
  lemma TakenStays(h: seq<Version>, e: Entry, g: seq<Version>)
    requires TakenFrom(h, e) && h <= g
    ensures TakenFrom(g, e)
  {
    var i, j :| Taken(h, e, i, j);
    assert Taken(g, e, i, j);
  }

  lemma DescriberStays(n: Naming, s: State, t: State, d: nat)
    requires d < |s.describers| && d < |t.describers| && s.describers[d] == t.describers[d] && DescriberOk(n, s, d)
    requires forall o: nat :: History(s, o) <= History(t, o)
    ensures DescriberOk(n, t, d)
  {
    var name := s.describers[d].name;
    var h, g := History(s, n.resolve(name)), History(t, n.resolve(name));
    match s.describers[d].pc
    case FetchRows(timestamp, packageName, objectId) =>
      var i :| 0 <= i < |h| && Asked(h, i, timestamp, packageName, objectId);
      assert Asked(g, i, timestamp, packageName, objectId);
    case StoreRows(timestamp, packageName, rows) => TakenStays(h, Entry(timestamp, packageName, ArgsOf(rows)), g);
    case _ =>
  }

  /** The describer that moves ends up with something it read off the object's history. */
  lemma MoverOk(n: Naming, s: State, e: Event, d: nat)
    requires Inv(n, s) && Enabled(n, s, e)
    requires e == ReadEntry(d) || e.ShortQuery? || e.LongQuery? || e == StoreEntry(d)
    requires e.d == d
    ensures DescriberOk(n, Apply(n, s, e), d)
  {
    var t := Apply(n, s, e);
    var h := History(s, n.resolve(s.describers[d].name));
    assert DescriberOk(n, s, d);
    if e.ShortQuery? && t.describers[d].pc.FetchRows? {
      assert Asked(h, |h| - 1, Last(h).time, Last(h).packageName, Last(h).objectId);
    }
    if e.LongQuery? && t.describers[d].pc.StoreRows? {
      var FetchRows(timestamp, packageName, objectId) := s.describers[d].pc;
      var i :| 0 <= i < |h| && Asked(h, i, timestamp, packageName, objectId);
      assert Taken(h, Entry(timestamp, packageName, ArgsOf(t.describers[d].pc.rows)), i, |h| - 1);
    }
  }

  lemma EntriesOk(n: Naming, s: State, e: Event, k: string)
    requires Inv(n, s) && Enabled(n, s, e) && k in Apply(n, s, e).plist
    ensures EntryOk(n, Apply(n, s, e), k)
  {
    var t := Apply(n, s, e);
    if e.StoreEntry? && n.key(s.describers[e.d].name) == k {
      assert DescriberOk(n, s, e.d);
    } else {
      assert EntryOk(n, s, k);
      TakenStays(History(s, n.resolve(s.owners[k])), s.plist[k], History(t, n.resolve(s.owners[k])));
    }
  }

  lemma StepKeepsInv(n: Naming, s: State, e: Event)
    requires Inv(n, s) && Enabled(n, s, e)
    ensures Inv(n, Apply(n, s, e))
  {
    var t := Apply(n, s, e);
    forall o: nat ensures TimesIncrease(History(t, o)) && History(s, o) <= History(t, o) {
      assert TimesIncrease(History(s, o));
    }
    forall d: nat | d < |t.describers| ensures DescriberOk(n, t, d) {
      if d < |s.describers| && s.describers[d] == t.describers[d] {
        DescriberStays(n, s, t, d);
      } else if d < |s.describers| {
        MoverOk(n, s, e, d);
      }
    }
    forall k | k in t.plist ensures EntryOk(n, t, k) {
      EntriesOk(n, s, e, k);
    }
  }

  lemma {:induction false} RunKeepsInv(n: Naming, s: State, es: seq<Event>, t: State)
    requires Inv(n, s) && Leads(n, s, es, t)
    ensures Inv(n, t)
    decreases |es|
  {
    if es != [] {
      StepKeepsInv(n, s, es[0]);
      RunKeepsInv(n, Apply(n, s, es[0]), es[1..], t);
    }
  }

  lemma ReachableInv(n: Naming, s: State)
    requires Reachable(n, s)
    ensures Inv(n, s)
  {
    var es :| Leads(n, State(map[], map[], map[], []), es, s);
    RunKeepsInv(n, State(map[], map[], map[], []), es, s);
  }
}
