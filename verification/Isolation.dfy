/** A client of MemoryStorage with a heap of its own: strings, times, lists and users, the
    users it built and those it was handed out alike. Between calls it may write to any of
    them and let any pointer of any user point to anything it has, or to nothing, so that
    users share strings and lists. The storage shares nothing with it: it behaves as a table
    of values, and the client's heap changes only by the client's own doing. */
module Isolation {
  import opened Wrappers
  import opened Users
  import opened MemoryStore

  // A place in the client's heap: the n-th string, time or list that it has.
  type Place = nat

  datatype Plain = Plain(id: UserId, passwordHash: string, createdAt: int, updatedAt: int, isTechnicalUser: bool,
                         totpEnabled: bool, totpFailedAttempts: int)

  // A user of the client: its pointers are places.
  datatype ClientUser = ClientUser(
    plain: Plain,
    username: Option<Place>,
    email: Option<Place>,
    apiKeyHash: Option<Place>,
    totpSecret: Option<Place>,
    totpEnrolledAt: Option<Place>,
    backupCodeHashes: Option<Place>)

  datatype Heap = Heap(strings: seq<string>, times: seq<int>, lists: seq<seq<string>>, users: seq<ClientUser>)

  // The table and the client's heap, as values.
  datatype World = World(table: Table, heap: Heap)

  datatype Pointer = ToUsername | ToEmail | ToApiKeyHash | ToSecret

  datatype Command =
    | NewString(s: string)
    | NewTime(time: int)
    | NewList(list: seq<string>)
    | NewUser(plain: Plain)
    | WriteString(n: Place, s: string)
    | WriteTime(n: Place, time: int)
    | WriteList(n: Place, i: nat, s: string)
    | WritePlain(k: nat, plain: Plain)
    | PointString(k: nat, p: Pointer, to: Option<Place>)
    | PointTime(k: nat, to: Option<Place>)
    | PointList(k: nat, to: Option<Place>)
    | Get(id: UserId)                  // GetUserByID; the answer is kept
    | Look(f: Field, name: string)     // GetUserByUsername or GetUserByEmail; the answer is kept
    | Pass(k: nat, update: bool)       // CreateUser or UpdateUser with the k-th user
    | Enrol(id: UserId, secret: string, n: Place, now: int)  // SetTOTP with the n-th list
    | Narrow(op: Op)                   // any operation that takes neither a user nor a list

  // ---- What the commands mean on values ----

  function At<T>(s: seq<T>, p: Option<Place>): Option<T> {
    if p.Some? && p.value < |s| then Some(s[p.value]) else None
  }

  // The user that the storage sees.
  function Seen(h: Heap, u: ClientUser): User {
    var codes := At(h.lists, u.backupCodeHashes);
    User(u.plain.id,
         Profile(At(h.strings, u.username), At(h.strings, u.email), u.plain.passwordHash, u.plain.createdAt,
                 u.plain.updatedAt, u.plain.isTechnicalUser, At(h.strings, u.apiKeyHash)),
         Security(At(h.strings, u.totpSecret), u.plain.totpEnabled, At(h.times, u.totpEnrolledAt),
                  if codes.None? then [] else codes.value, u.plain.totpFailedAttempts))
  }

  function OneOf<T>(v: Option<T>): seq<T> {
    if v.None? then [] else [v.value]
  }

  function PlaceOf<T>(v: Option<T>, n: nat): Option<Place> {
    if v.None? then None else Some(n)
  }

  function PlainOf(u: User): Plain {
    Plain(u.id, u.profile.passwordHash, u.profile.createdAt, u.profile.updatedAt, u.profile.isTechnicalUser,
          u.security.totpEnabled, u.security.totpFailedAttempts)
  }

  // A user handed out comes with strings, a time and a list of its own.
  function Adopted(h: Heap, u: User): ClientUser {
    var p, s := u.profile, u.security;
    var n := |h.strings|;
    var m := n + |OneOf(p.username)|;
    var k := m + |OneOf(p.email)|;
    ClientUser(PlainOf(u), PlaceOf(p.username, n), PlaceOf(p.email, m), PlaceOf(p.apiKeyHash, k),
               PlaceOf(s.totpSecret, k + |OneOf(p.apiKeyHash)|), PlaceOf(s.totpEnrolledAt, |h.times|), Some(|h.lists|))
  }

  function Adopt(h: Heap, u: User): Heap {
    var p, s := u.profile, u.security;
    Heap(h.strings + OneOf(p.username) + OneOf(p.email) + OneOf(p.apiKeyHash) + OneOf(s.totpSecret),
         h.times + OneOf(s.totpEnrolledAt), h.lists + [s.backupCodeHashes], h.users + [Adopted(h, u)])
  }

  function Pointed(u: ClientUser, f: Pointer, to: Option<Place>): ClientUser {
    match f
    case ToUsername => u.(username := to)
    case ToEmail => u.(email := to)
    case ToApiKeyHash => u.(apiKeyHash := to)
    case ToSecret => u.(totpSecret := to)
  }

  predicate Within<T>(p: Option<Place>, s: seq<T>) {
    p.Some? ==> p.value < |s|
  }

  function WithUser(h: Heap, k: nat, u: ClientUser): Heap
    requires k < |h.users|
  {
    h.(users := h.users[k := u])
  }

  // What the client does to its own heap.
  function Own(h: Heap, c: Command): Heap {
    match c
    case NewString(s) => h.(strings := h.strings + [s])
    case NewTime(time) => h.(times := h.times + [time])
    case NewList(list) => h.(lists := h.lists + [list])
    case NewUser(plain) => h.(users := h.users + [ClientUser(plain, None, None, None, None, None, None)])
    case WriteString(n, s) => if n < |h.strings| then h.(strings := h.strings[n := s]) else h
    case WriteTime(n, time) => if n < |h.times| then h.(times := h.times[n := time]) else h
    case WriteList(n, i, s) =>
      if n < |h.lists| && i < |h.lists[n]| then h.(lists := h.lists[n := h.lists[n][i := s]]) else h
    case WritePlain(k, plain) => if k < |h.users| then WithUser(h, k, h.users[k].(plain := plain)) else h
    case PointString(k, p, to) =>
      if k < |h.users| && Within(to, h.strings) then WithUser(h, k, Pointed(h.users[k], p, to)) else h
    case PointTime(k, to) =>
      if k < |h.users| && Within(to, h.times) then WithUser(h, k, h.users[k].(totpEnrolledAt := to)) else h
    case PointList(k, to) =>
      if k < |h.users| && Within(to, h.lists) then WithUser(h, k, h.users[k].(backupCodeHashes := to)) else h
    case _ => h
  }

  ghost function Obey(lower: Lower, w: World, c: Command): World {
    match c
    case Get(id) => if id in w.table then w.(heap := Adopt(w.heap, w.table[id])) else w
    case Look(f, name) =>
      var found := Find(lower, f, w.table, name);
      if found.Some? then w.(heap := Adopt(w.heap, found.value)) else w
    case Pass(k, update) =>
      if k >= |w.heap.users| then w
      else if update then w.(table := UpdateUser(lower, w.table, Seen(w.heap, w.heap.users[k])).0)
      else w.(table := CreateUser(lower, w.table, Seen(w.heap, w.heap.users[k])).0)
    case Enrol(id, secret, n, now) =>
      if n < |w.heap.lists| then w.(table := SetTOTP(w.table, id, secret, w.heap.lists[n], now).0) else w
    case Narrow(op) => if op.Create? || op.Update? || op.Enrol? then w else w.(table := Apply(lower, w.table, op).0)
    case _ => w.(heap := Own(w.heap, c))
  }

  ghost function ObeyAll(lower: Lower, w: World, cs: seq<Command>): World {
    if cs == [] then w else Obey(lower, ObeyAll(lower, w, cs[..|cs| - 1]), cs[|cs| - 1])
  }

  // ---- The client's objects ----

  ghost predicate Points<T>(p: Cell?<T>, cells: seq<Cell<T>>, a: Option<Place>) {
    if a.None? then p == null else a.value < |cells| && p == cells[a.value]
  }

  ghost predicate Lists(p: array?<string>, lists: seq<array<string>>, a: Option<Place>) {
    if a.None? then p == null else a.value < |lists| && p == lists[a.value]
  }

  ghost predicate HasPlain(u: UserObject, plain: Plain)
    reads u
  {
    && u.id == plain.id && u.passwordHash == plain.passwordHash && u.createdAt == plain.createdAt
    && u.updatedAt == plain.updatedAt && u.isTechnicalUser == plain.isTechnicalUser
    && u.totpEnabled == plain.totpEnabled && u.totpFailedAttempts == plain.totpFailedAttempts
  }

  class Client {
    const storage: MemoryStorage
    var strings: seq<Cell<string>>
    var times: seq<Cell<int>>
    var lists: seq<array<string>>
    var held: seq<UserObject>
    ghost var heap: Heap
    ghost var Repr: set<object>

    ghost predicate HasStrings()
      reads this, Repr
    {
      && |strings| == |heap.strings|
      && (forall i: nat {:trigger Focus(i)} | Focus(i) && i < |strings| ::
            strings[i] in Repr && strings[i].value == heap.strings[i])
      && (forall i: nat, j: nat {:trigger Focus(i), Focus(j)} | Focus(i) && Focus(j) && i < j < |strings| ::
            strings[i] != strings[j])
    }

    ghost predicate HasTimes()
      reads this, Repr
    {
      && |times| == |heap.times|
      && (forall i: nat {:trigger Focus(i)} | Focus(i) && i < |times| ::
            times[i] in Repr && times[i].value == heap.times[i])
      && (forall i: nat, j: nat {:trigger Focus(i), Focus(j)} | Focus(i) && Focus(j) && i < j < |times| ::
            times[i] != times[j])
    }

    ghost predicate HasLists()
      reads this, Repr
    {
      && |lists| == |heap.lists|
      && (forall i: nat {:trigger Focus(i)} | Focus(i) && i < |lists| ::
            lists[i] in Repr && lists[i][..] == heap.lists[i])
      && (forall i: nat, j: nat {:trigger Focus(i), Focus(j)} | Focus(i) && Focus(j) && i < j < |lists| ::
            lists[i] != lists[j])
    }

    ghost predicate Denotes(u: UserObject, c: ClientUser)
      reads this, u
    {
      && HasPlain(u, c.plain)
      && Points(u.username, strings, c.username) && Points(u.email, strings, c.email)
      && Points(u.apiKeyHash, strings, c.apiKeyHash) && Points(u.totpSecret, strings, c.totpSecret)
      && Points(u.totpEnrolledAt, times, c.totpEnrolledAt) && Lists(u.backupCodeHashes, lists, c.backupCodeHashes)
    }

    ghost predicate HasUsers()
      reads this, Repr
    {
      && |held| == |heap.users|
      && (forall k: nat {:trigger Focus(k)} | Focus(k) && k < |held| ::
            held[k] in Repr && held[k].Repr <= Repr && held[k].Valid() && Denotes(held[k], heap.users[k]))
      && (forall k: nat, l: nat {:trigger Focus(k), Focus(l)} | Focus(k) && Focus(l) && k < l < |held| ::
            held[k] != held[l])
    }

    ghost predicate Holding()
      reads this, Repr
    {
      this in Repr && HasStrings() && HasTimes() && HasLists() && HasUsers()
    }

    // Nothing the client can reach is reachable from the storage.
    ghost predicate Valid()
      reads this, Repr, storage, storage.Repr
    {
      Holding() && storage.Valid() && Repr !! storage.Repr
    }

    constructor (storage: MemoryStorage)
      requires storage.Valid()
      ensures Valid() && fresh(Repr) && this.storage == storage
      ensures heap == Heap([], [], [], [])
    {
      this.storage := storage;
      strings, times, lists, held := [], [], [], [];
      heap := Heap([], [], [], []);
      Repr := {this};
    }

    // ---- Its own doing ----

    method NewString(s: string)
      requires Holding()
      modifies this
      ensures Holding() && fresh(Repr - old(Repr)) && old(Repr) <= Repr
      ensures heap == Own(old(heap), Command.NewString(s))
    {
      var c := new Cell(s);
      AddString(c, s);
    }

    ghost method Reach(o: object)
      requires Holding()
      modifies this`Repr
      ensures Holding() && Repr == old(Repr) + {o}
    {
      Repr := Repr + {o};
    }

    method AddString(c: Cell<string>, ghost s: string)
      requires Holding() && c !in Repr && c.value == s
      modifies this`strings, this`heap, this`Repr
      ensures Holding() && Repr == old(Repr) + {c}
      ensures heap == old(heap).(strings := old(heap).strings + [s]) && strings == old(strings) + [c]
    {
      assert forall i: nat | Focus(i) && i < |strings| :: strings[i] != c;
      Reach(c);
      AppendString(c, s);
    }

    method AppendString(c: Cell<string>, ghost s: string)
      requires Holding() && c in Repr && c.value == s
      requires forall i: nat {:trigger Focus(i)} | Focus(i) && i < |strings| :: strings[i] != c
      modifies this`strings, this`heap
      ensures Holding()
      ensures heap == old(heap).(strings := old(heap).strings + [s]) && strings == old(strings) + [c]
    {
      strings, heap := strings + [c], heap.(strings := heap.strings + [s]);
    }

    method NewTime(time: int)
      requires Holding()
      modifies this
      ensures Holding() && fresh(Repr - old(Repr)) && old(Repr) <= Repr
      ensures heap == Own(old(heap), Command.NewTime(time))
    {
      var c := new Cell(time);
      AddTime(c, time);
    }

    method AddTime(c: Cell<int>, ghost time: int)
      requires Holding() && c !in Repr && c.value == time
      modifies this`times, this`heap, this`Repr
      ensures Holding() && Repr == old(Repr) + {c}
      ensures heap == old(heap).(times := old(heap).times + [time]) && times == old(times) + [c]
    {
      times, heap, Repr := times + [c], heap.(times := heap.times + [time]), Repr + {c};
    }

    method NewList(list: seq<string>)
      requires Holding()
      modifies this
      ensures Holding() && fresh(Repr - old(Repr)) && old(Repr) <= Repr
      ensures heap == Own(old(heap), Command.NewList(list))
    {
      var a := FreshList(list);
      AddList(a, list);
    }

    method AddList(a: array<string>, ghost list: seq<string>)
      requires Holding() && a !in Repr && a[..] == list
      modifies this`lists, this`heap, this`Repr
      ensures Holding() && Repr == old(Repr) + {a}
      ensures heap == old(heap).(lists := old(heap).lists + [list]) && lists == old(lists) + [a]
    {
      lists, heap, Repr := lists + [a], heap.(lists := heap.lists + [list]), Repr + {a};
    }

    method NewUser(plain: Plain)
      requires Holding()
      modifies this
      ensures Holding() && fresh(Repr - old(Repr)) && old(Repr) <= Repr
      ensures heap == Own(old(heap), Command.NewUser(plain))
    {
      var u := new UserObject(plain.id, null, null, plain.passwordHash, plain.createdAt, plain.updatedAt,
                              plain.isTechnicalUser, null, null, plain.totpEnabled, null, null,
                              plain.totpFailedAttempts);
      AddUser(u, ClientUser(plain, None, None, None, None, None, None));
    }

    method AddUser(u: UserObject, ghost c: ClientUser)
      requires Holding() && u !in Repr && u.Valid() && Denotes(u, c)
      modifies this`held, this`heap, this`Repr
      ensures Holding() && Repr == old(Repr) + u.Repr
      ensures heap == old(heap).(users := old(heap).users + [c])
    {
      held, heap, Repr := held + [u], heap.(users := heap.users + [c]), Repr + u.Repr;
    }

    method WriteString(n: Place, s: string)
      requires Holding() && n < |strings|
      modifies this`heap, strings[n]
      ensures Holding() && heap == Own(old(heap), Command.WriteString(n, s))
    {
      assert Focus(n);
      strings[n].value := s;
      heap := heap.(strings := heap.strings[n := s]);
    }

    method WriteTime(n: Place, time: int)
      requires Holding() && n < |times|
      modifies this`heap, times[n]
      ensures Holding() && heap == Own(old(heap), Command.WriteTime(n, time))
    {
      assert Focus(n);
      times[n].value := time;
      heap := heap.(times := heap.times[n := time]);
    }

    method WriteList(n: Place, i: nat, s: string)
      requires Holding() && n < |lists| && i < lists[n].Length
      modifies this`heap, lists[n]
      ensures Holding() && heap == Own(old(heap), Command.WriteList(n, i, s))
    {
      assert Focus(n);
      lists[n][i] := s;
      heap := heap.(lists := heap.lists[n := heap.lists[n][i := s]]);
    }

    // All of Holding but what it says of the k-th user, which has just been changed.
    ghost predicate HoldingBut(k: nat)
      reads this, Repr
    {
      && this in Repr && HasStrings() && HasTimes() && HasLists() && |held| == |heap.users|
      && (forall l: nat {:trigger Focus(l)} | Focus(l) && l < |held| ::
            held[l] in Repr && (l != k ==> held[l].Repr <= Repr && held[l].Valid() && Denotes(held[l], heap.users[l])))
      && (forall l: nat, m: nat {:trigger Focus(l), Focus(m)} | Focus(l) && Focus(m) && l < m < |held| ::
            held[l] != held[m])
    }

    ghost method Settle(k: nat, c: ClientUser)
      requires HoldingBut(k) && k < |held| && held[k].Valid() && held[k].Repr <= Repr && Denotes(held[k], c)
      modifies this`heap
      ensures Holding() && heap == WithUser(old(heap), k, c)
    {
      heap := WithUser(heap, k, c);
    }

    method WritePlain(k: nat, plain: Plain)
      requires Holding() && k < |held|
      modifies this`heap, held[k]
      ensures Holding() && heap == Own(old(heap), Command.WritePlain(k, plain))
    {
      assert Focus(k);
      SetPlain(held[k], plain);
      Settle(k, heap.users[k].(plain := plain));
    }

    method StringAt(to: Option<Place>) returns (target: Cell?<string>)
      requires Holding() && Within(to, strings)
      ensures Points(target, strings, to) && (target != null ==> target in Repr)
    {
      if to.None? {
        target := null;
      } else {
        assert Focus(to.value);
        target := strings[to.value];
      }
    }

    method RedirectString(k: nat, p: Pointer, target: Cell?<string>, ghost to: Option<Place>)
      requires Holding() && k < |held| && Points(target, strings, to) && (target != null ==> target in Repr)
      modifies held[k]
      ensures HoldingBut(k) && held[k].Valid() && held[k].Repr <= Repr
      ensures Denotes(held[k], Pointed(heap.users[k], p, to))
    {
      assert Focus(k);
      SetPointer(held[k], p, target);
    }

    method PointString(k: nat, p: Pointer, to: Option<Place>)
      requires Holding() && k < |held| && Within(to, strings)
      modifies this`heap, held[k]
      ensures Holding() && heap == Own(old(heap), Command.PointString(k, p, to))
    {
      var target := StringAt(to);
      RedirectString(k, p, target, to);
      Settle(k, Pointed(heap.users[k], p, to));
    }

    method TimeAt(to: Option<Place>) returns (target: Cell?<int>)
      requires Holding() && Within(to, times)
      ensures Points(target, times, to) && (target != null ==> target in Repr)
    {
      if to.None? {
        target := null;
      } else {
        assert Focus(to.value);
        target := times[to.value];
      }
    }

    method RedirectTime(k: nat, target: Cell?<int>, ghost to: Option<Place>)
      requires Holding() && k < |held| && Points(target, times, to) && (target != null ==> target in Repr)
      modifies held[k]
      ensures HoldingBut(k) && held[k].Valid() && held[k].Repr <= Repr
      ensures Denotes(held[k], heap.users[k].(totpEnrolledAt := to))
    {
      assert Focus(k);
      SetTime(held[k], target);
    }

    method PointTime(k: nat, to: Option<Place>)
      requires Holding() && k < |held| && Within(to, times)
      modifies this`heap, held[k]
      ensures Holding() && heap == Own(old(heap), Command.PointTime(k, to))
    {
      var target := TimeAt(to);
      RedirectTime(k, target, to);
      Settle(k, heap.users[k].(totpEnrolledAt := to));
    }

    method ListAt(to: Option<Place>) returns (target: array?<string>)
      requires Holding() && Within(to, lists)
      ensures Lists(target, lists, to) && (target != null ==> target in Repr)
    {
      if to.None? {
        target := null;
      } else {
        assert Focus(to.value);
        target := lists[to.value];
      }
    }

    method RedirectList(k: nat, target: array?<string>, ghost to: Option<Place>)
      requires Holding() && k < |held| && Lists(target, lists, to) && (target != null ==> target in Repr)
      modifies held[k]
      ensures HoldingBut(k) && held[k].Valid() && held[k].Repr <= Repr
      ensures Denotes(held[k], heap.users[k].(backupCodeHashes := to))
    {
      assert Focus(k);
      SetList(held[k], target);
    }

    method PointList(k: nat, to: Option<Place>)
      requires Holding() && k < |held| && Within(to, lists)
      modifies this`heap, held[k]
      ensures Holding() && heap == Own(old(heap), Command.PointList(k, to))
    {
      var target := ListAt(to);
      RedirectList(k, target, to);
      Settle(k, heap.users[k].(backupCodeHashes := to));
    }

    // ---- Users handed out ----

    method KeepString(p: Cell?<string>, ghost v: Option<string>) returns (ghost parts: set<object>)
      requires Holding() && (p != null ==> p !in Repr) && Deref(p) == v
      modifies this`strings, this`heap, this`Repr
      ensures Holding() && heap == old(heap).(strings := old(heap).strings + OneOf(v))
      ensures parts == (if p == null then {} else {p as object}) && Repr == old(Repr) + parts
      ensures old(strings) <= strings && Points(p, strings, PlaceOf(v, |old(heap).strings|))
    {
      parts := {};
      if p == null {
        assert heap.strings + [] == heap.strings;
      } else {
        AddString(p, v.value);
        parts := {p};
      }
    }

    method KeepTime(p: Cell?<int>, ghost v: Option<int>) returns (ghost parts: set<object>)
      requires Holding() && (p != null ==> p !in Repr) && Deref(p) == v
      modifies this`times, this`heap, this`Repr
      ensures Holding() && heap == old(heap).(times := old(heap).times + OneOf(v))
      ensures parts == (if p == null then {} else {p as object}) && Repr == old(Repr) + parts
      ensures Points(p, times, PlaceOf(v, |old(heap).times|))
    {
      parts := {};
      if p == null {
        assert heap.times + [] == heap.times;
      } else {
        AddTime(p, v.value);
        parts := {p};
      }
    }

    method KeepTwo(p: Cell?<string>, q: Cell?<string>, ghost v: Option<string>, ghost w: Option<string>)
      returns (ghost parts: set<object>)
      requires Holding() && (p != null ==> p !in Repr && p != q) && (q != null ==> q !in Repr)
      requires Deref(p) == v && Deref(q) == w
      modifies this`strings, this`heap, this`Repr
      ensures Holding() && heap == old(heap).(strings := old(heap).strings + OneOf(v) + OneOf(w))
      ensures parts == (if p == null then {} else {p as object}) + (if q == null then {} else {q as object})
      ensures Repr == old(Repr) + parts && old(strings) <= strings
      ensures Points(p, strings, PlaceOf(v, |old(heap).strings|))
      ensures Points(q, strings, PlaceOf(w, |old(heap).strings| + |OneOf(v)|))
    {
      ghost var a := KeepString(p, v);
      ghost var b := KeepString(q, w);
      parts := a + b;
    }

    method KeepFour(p: Cell?<string>, q: Cell?<string>, r: Cell?<string>, o: Cell?<string>,
                    ghost v: Option<string>, ghost w: Option<string>, ghost x: Option<string>, ghost y: Option<string>)
      returns (ghost parts: set<object>)
      requires Holding() && Deref(p) == v && Deref(q) == w && Deref(r) == x && Deref(o) == y
      requires (p != null ==> p !in Repr && p !in {q, r, o}) && (q != null ==> q !in Repr && q !in {r, o})
      requires (r != null ==> r !in Repr && r != o) && (o != null ==> o !in Repr)
      modifies this`strings, this`heap, this`Repr
      ensures Holding()
      ensures heap == old(heap).(strings := old(heap).strings + OneOf(v) + OneOf(w) + OneOf(x) + OneOf(y))
      ensures Repr == old(Repr) + parts
      ensures forall part | part in parts :: part == p || part == q || part == r || part == o
      ensures
        var n := |old(heap).strings|;
        var k := n + |OneOf(v)| + |OneOf(w)|;
        && Points(p, strings, PlaceOf(v, n)) && Points(q, strings, PlaceOf(w, n + |OneOf(v)|))
        && Points(r, strings, PlaceOf(x, k)) && Points(o, strings, PlaceOf(y, k + |OneOf(x)|))
    {
      ghost var a := KeepTwo(p, q, v, w);
      ghost var b := KeepTwo(r, o, x, y);
      parts := a + b;
    }

    // The strings of a user handed out, which no one else has.
    method KeepStrings(u: UserObject, ghost value: User) returns (ghost parts: set<object>)
      requires Holding() && u.Valid() && u.Value() == value && u.Apart() && u.Repr !! Repr
      modifies this`strings, this`heap, this`Repr
      ensures Holding() && heap == old(heap).(strings := Adopt(old(heap), value).strings)
      ensures Repr == old(Repr) + parts
      ensures forall o | o in parts :: o == u.username || o == u.email || o == u.apiKeyHash || o == u.totpSecret
      ensures
        var c := Adopted(old(heap), value);
        && Points(u.username, strings, c.username) && Points(u.email, strings, c.email)
        && Points(u.apiKeyHash, strings, c.apiKeyHash) && Points(u.totpSecret, strings, c.totpSecret)
    {
      ghost var p, s := value.profile, value.security;
      parts := KeepFour(u.username, u.email, u.apiKeyHash, u.totpSecret, p.username, p.email, p.apiKeyHash,
                        s.totpSecret);
    }

    // The list of a user handed out; a nil list becomes an empty one.
    method KeepCodes(u: UserObject, ghost codes: seq<string>)
      requires Holding() && u.Valid() && Elements(u.backupCodeHashes) == codes
      requires u !in Repr && (u.backupCodeHashes != null ==> u.backupCodeHashes !in Repr)
      modifies this`lists, this`heap, this`Repr, u`backupCodeHashes, u`Repr
      ensures Holding() && heap == old(heap).(lists := old(heap).lists + [codes])
      ensures u.Valid() && fresh(u.Repr - old(u.Repr)) && old(u.Repr) <= u.Repr
      ensures u.backupCodeHashes != null && Repr == old(Repr) + {u.backupCodeHashes}
      ensures Lists(u.backupCodeHashes, lists, Some(|old(heap).lists|))
      ensures u.backupCodeHashes == old(u.backupCodeHashes) || fresh(u.backupCodeHashes)
    {
      if u.backupCodeHashes == null {
        var none := FreshList([]);
        SetList(u, none);
      }
      AddList(u.backupCodeHashes, codes);
    }

    method KeepCells(u: UserObject, ghost value: User) returns (ghost parts: set<object>)
      requires Holding() && u.Valid() && u.Value() == value && u.Apart() && u.Repr !! Repr
      modifies this`strings, this`times, this`heap, this`Repr
      ensures Holding()
      ensures heap == old(heap).(strings := Adopt(old(heap), value).strings, times := Adopt(old(heap), value).times)
      ensures Repr == old(Repr) + parts && parts <= u.Repr
      ensures forall o | o in parts :: o != u && o != u.backupCodeHashes
      ensures
        var c := Adopted(old(heap), value);
        && Points(u.username, strings, c.username) && Points(u.email, strings, c.email)
        && Points(u.apiKeyHash, strings, c.apiKeyHash) && Points(u.totpSecret, strings, c.totpSecret)
        && Points(u.totpEnrolledAt, times, c.totpEnrolledAt)
    {
      parts := KeepStrings(u, value);
      ghost var t := KeepTime(u.totpEnrolledAt, value.security.totpEnrolledAt);
      parts := parts + t;
    }

    // All that a user handed out points to.
    method KeepParts(u: UserObject, ghost value: User)
      requires Holding() && u.Valid() && u.Value() == value && u.Apart() && u.Repr !! Repr
      modifies this`strings, this`times, this`lists, this`heap, this`Repr, u`backupCodeHashes, u`Repr
      ensures Holding() && heap == Adopt(old(heap), value).(users := old(heap).users)
      ensures u.Valid() && u !in Repr && Denotes(u, Adopted(old(heap), value))
      ensures Repr <= old(Repr) + u.Repr && fresh(u.Repr - old(u.Repr))
    {
      ghost var codes := value.security.backupCodeHashes;
      ghost var parts := KeepCells(u, value);
      KeepCodes(u, codes);
    }

    method KeepUser(u: UserObject, ghost value: User)
      requires Holding() && u.Valid() && u.Value() == value && u.Apart() && u.Repr !! Repr
      modifies this`strings, this`times, this`lists, this`held, this`heap, this`Repr, u`backupCodeHashes, u`Repr
      ensures Holding() && heap == Adopt(old(heap), value)
      ensures Repr <= old(Repr) + u.Repr && fresh(u.Repr - old(u.Repr))
    {
      KeepParts(u, value);
      AddUser(u, Adopted(old(heap), value));
    }

    // ---- Calls of the storage ----

    method Get(id: UserId)
      requires Valid()
      modifies this
      ensures Valid() && fresh(Repr - old(Repr))
      ensures heap == if id in storage.Contents then Adopt(old(heap), storage.Contents[id]) else old(heap)
    {
      var u := storage.GetUserByID(id);
      if u != null {
        KeepUser(u, storage.Contents[id]);
      }
    }

    method Look(f: Field, name: string)
      requires Valid()
      modifies this
      ensures Valid() && fresh(Repr - old(Repr))
      ensures var found := Find(storage.lower, f, storage.Contents, name);
              heap == if found.Some? then Adopt(old(heap), found.value) else old(heap)
    {
      var u := LookUp(f, name);
      if u != null {
        KeepUser(u, Find(storage.lower, f, storage.Contents, name).value);
      }
    }

    method LookUp(f: Field, name: string) returns (u: UserObject?)
      requires storage.Valid()
      ensures u == null <==> Find(storage.lower, f, storage.Contents, name).None?
      ensures u != null ==>
        fresh(u.Repr) && u.Valid() && u.Value() == Find(storage.lower, f, storage.Contents, name).value && u.Apart()
    {
      if f == Username {
        u := storage.GetUserByUsername(name);
      } else {
        u := storage.GetUserByEmail(name);
      }
    }

    // What the storage sees in a user that it is passed.
    lemma IsSeen(k: nat)
      requires Holding() && k < |held|
      ensures held[k].Valid() && held[k].Value() == Seen(heap, heap.users[k])
    {
      assert Focus(k);
      var u, c := held[k], heap.users[k];
      CellSeen(u.username, strings, heap.strings, c.username);
      CellSeen(u.email, strings, heap.strings, c.email);
      CellSeen(u.apiKeyHash, strings, heap.strings, c.apiKeyHash);
      CellSeen(u.totpSecret, strings, heap.strings, c.totpSecret);
      CellSeen(u.totpEnrolledAt, times, heap.times, c.totpEnrolledAt);
      assert c.backupCodeHashes.Some? ==> Focus(c.backupCodeHashes.value);
    }

    method Pass(k: nat, update: bool)
      requires Valid() && k < |held|
      modifies storage
      ensures Valid() && fresh(storage.Repr - old(storage.Repr))
      ensures storage.Contents
          == if update then UpdateUser(storage.lower, old(storage.Contents), Seen(heap, heap.users[k])).0
                                  else CreateUser(storage.lower, old(storage.Contents), Seen(heap, heap.users[k])).0
    {
      IsSeen(k);
      if update {
        var _ := storage.UpdateUser(held[k]);
      } else {
        var _ := storage.CreateUser(held[k]);
      }
    }

    method Enrol(id: UserId, secret: string, n: Place, now: int)
      requires Valid() && n < |lists|
      modifies storage.Repr
      ensures Valid() && fresh(storage.Repr - old(storage.Repr))
      ensures storage.Contents == SetTOTP(old(storage.Contents), id, secret, heap.lists[n], now).0
    {
      assert Focus(n);
      var _ := storage.SetTOTP(id, secret, lists[n], now);
    }

    method Narrow(op: Op)
      requires Valid() && !op.Create? && !op.Update? && !op.Enrol?
      modifies storage.Repr
      ensures Valid() && fresh(storage.Repr - old(storage.Repr))
      ensures storage.Contents == Apply(storage.lower, old(storage.Contents), op).0
    {
      match op
      case Delete(id) => var _ := storage.DeleteUser(id);
      case Attempt(id, max) => var _ := storage.ConsumeTOTPAttempt(id, max);
      case ResetAttempts(id) => var _ := storage.ResetTOTPAttempts(id);
      case ConsumeCode(id, hash, now) => var _ := storage.ConsumeBackupCode(id, hash, now);
      case Disenrol(id, now) => var _ := storage.ClearTOTP(id, now);
    }

    // ---- Any program of the client ----

    // A command that stays within the client's heap.
    predicate IsOwn(c: Command) {
      !c.Get? && !c.Look? && !c.Pass? && !c.Enrol? && !c.Narrow?
    }

    method Add(c: Command)
      requires Holding() && (c.NewString? || c.NewTime? || c.NewList? || c.NewUser?)
      modifies this
      ensures Holding() && fresh(Repr - old(Repr)) && heap == Own(old(heap), c)
    {
      match c
      case NewString(s) => NewString(s);
      case NewTime(time) => NewTime(time);
      case NewList(list) => NewList(list);
      case NewUser(plain) => NewUser(plain);
    }

    method Put(c: Command)
      requires Holding() && (c.WriteString? || c.WriteTime? || c.WriteList?)
      modifies Repr
      ensures Holding() && Repr == old(Repr) && heap == Own(old(heap), c)
    {
      if c.WriteString? && c.n < |strings| {
        assert Focus(c.n);
        WriteString(c.n, c.s);
      } else if c.WriteTime? && c.n < |times| {
        assert Focus(c.n);
        WriteTime(c.n, c.time);
      } else if c.WriteList? && c.n < |lists| {
        assert Focus(c.n);
        if c.i < lists[c.n].Length {
          WriteList(c.n, c.i, c.s);
        }
      }
    }

    method Change(c: Command)
      requires Holding() && (c.WritePlain? || c.PointString? || c.PointTime? || c.PointList?)
      modifies Repr
      ensures Holding() && Repr == old(Repr) && heap == Own(old(heap), c)
    {
      if c.k < |held| {
        assert Focus(c.k);
        if c.WritePlain? {
          WritePlain(c.k, c.plain);
        } else if c.PointString? && Within(c.to, strings) {
          PointString(c.k, c.p, c.to);
        } else if c.PointTime? && Within(c.to, times) {
          PointTime(c.k, c.to);
        } else if c.PointList? && Within(c.to, lists) {
          PointList(c.k, c.to);
        }
      }
    }

    method Obey1(c: Command)
      requires Valid()
      modifies Repr, storage.Repr
      ensures Valid() && fresh(Repr - old(Repr)) && fresh(storage.Repr - old(storage.Repr))
      ensures World(storage.Contents, heap) == Obey(storage.lower, old(World(storage.Contents, heap)), c)
    {
      if IsOwn(c) {
        OwnDoing(c);
      } else {
        Call(c);
      }
    }

    method OwnDoing(c: Command)
      requires Holding() && IsOwn(c)
      modifies Repr
      ensures Holding() && fresh(Repr - old(Repr)) && heap == Own(old(heap), c)
    {
      if c.NewString? || c.NewTime? || c.NewList? || c.NewUser? {
        Add(c);
      } else if c.WriteString? || c.WriteTime? || c.WriteList? {
        Put(c);
      } else {
        Change(c);
      }
    }

    method Call(c: Command)
      requires Valid() && !IsOwn(c)
      modifies this, storage.Repr
      ensures Valid() && fresh(Repr - old(Repr)) && fresh(storage.Repr - old(storage.Repr))
      ensures World(storage.Contents, heap) == Obey(storage.lower, old(World(storage.Contents, heap)), c)
    {
      match c
      case Get(id) => Get(id);
      case Look(f, name) => Look(f, name);
      case Pass(k, update) =>
        if k < |held| {
          Pass(k, update);
        }
      case Enrol(id, secret, n, now) =>
        if n < |lists| {
          Enrol(id, secret, n, now);
        }
      case Narrow(op) =>
        if !op.Create? && !op.Update? && !op.Enrol? {
          Narrow(op);
        }
    }

    // A whole run of the client.
    method Run(cs: seq<Command>)
      requires Valid()
      modifies Repr, storage.Repr
      ensures Valid()
      ensures World(storage.Contents, heap) == ObeyAll(storage.lower, old(World(storage.Contents, heap)), cs)
    {
      ghost var start := World(storage.Contents, heap);
      for n := 0 to |cs|
        invariant Valid() && fresh(Repr - old(Repr)) && fresh(storage.Repr - old(storage.Repr))
        invariant World(storage.Contents, heap) == ObeyAll(storage.lower, start, cs[..n])
      {
        assert cs[..n + 1][..n] == cs[..n];
        Obey1(cs[n]);
      }
      assert cs[..|cs|] == cs;
    }
  }

  lemma CellSeen<T>(p: Cell?<T>, cells: seq<Cell<T>>, values: seq<T>, a: Option<Place>)
    requires Points(p, cells, a) && |cells| == |values|
    requires forall i: nat {:trigger Focus(i)} | Focus(i) && i < |cells| :: cells[i].value == values[i]
    ensures Deref(p) == At(values, a)
  {
    assert a.Some? ==> Focus(a.value);
  }

  method SetPointer(u: UserObject, p: Pointer, target: Cell?<string>)
    requires u.Valid()
    modifies u`username, u`email, u`apiKeyHash, u`totpSecret, u`Repr
    ensures u.Valid() && u.Repr == old(u.Repr) + (if target == null then {} else {target as object})
    ensures u.username == if p == ToUsername then target else old(u.username)
    ensures u.email == if p == ToEmail then target else old(u.email)
    ensures u.apiKeyHash == if p == ToApiKeyHash then target else old(u.apiKeyHash)
    ensures u.totpSecret == if p == ToSecret then target else old(u.totpSecret)
  {
    u.Repr := u.Repr + (if target == null then {} else {target as object});
    match p
    case ToUsername => u.username := target;
    case ToEmail => u.email := target;
    case ToApiKeyHash => u.apiKeyHash := target;
    case ToSecret => u.totpSecret := target;
  }

  method SetTime(u: UserObject, target: Cell?<int>)
    requires u.Valid()
    modifies u`totpEnrolledAt, u`Repr
    ensures u.Valid() && u.Repr == old(u.Repr) + (if target == null then {} else {target as object})
    ensures u.totpEnrolledAt == target
  {
    u.Repr := u.Repr + (if target == null then {} else {target as object});
    u.totpEnrolledAt := target;
  }

  method SetList(u: UserObject, target: array?<string>)
    requires u.Valid()
    modifies u`backupCodeHashes, u`Repr
    ensures u.Valid() && u.Repr == old(u.Repr) + (if target == null then {} else {target as object})
    ensures u.backupCodeHashes == target
  {
    u.Repr := u.Repr + (if target == null then {} else {target as object});
    u.backupCodeHashes := target;
  }

  method SetPlain(u: UserObject, plain: Plain)
    requires u.Valid()
    modifies u
    ensures u.Valid() && u.Repr == old(u.Repr) && HasPlain(u, plain)
    ensures u.username == old(u.username) && u.email == old(u.email)
    ensures u.apiKeyHash == old(u.apiKeyHash) && u.totpSecret == old(u.totpSecret)
    ensures u.totpEnrolledAt == old(u.totpEnrolledAt) && u.backupCodeHashes == old(u.backupCodeHashes)
  {
    u.id, u.passwordHash, u.createdAt, u.updatedAt := plain.id, plain.passwordHash, plain.createdAt, plain.updatedAt;
    u.isTechnicalUser, u.totpEnabled := plain.isTechnicalUser, plain.totpEnabled;
    u.totpFailedAttempts := plain.totpFailedAttempts;
  }

  method FreshList(list: seq<string>) returns (a: array<string>)
    ensures fresh(a) && a[..] == list
  {
    a := new string[|list|](i requires 0 <= i < |list| => list[i]);
  }
}
