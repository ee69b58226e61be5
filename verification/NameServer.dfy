/** The name server of src/kernel/tasks/nameserver.cc: its string arena and table stand for a map. */
module NameServers {
  import opened Options

  const ARENA_SIZE: nat := 2048
  const MAX_NAMES: nat := 128
  const MAX_NAME_LEN: nat := 128

  /** What a client can send: no zero inside, and room for the terminator. */
  predicate IsName(s: string) { |s| < MAX_NAME_LEN && '\0' !in s }

  ghost predicate StoredAt(buf: seq<char>, idx: nat, name: string) {
    && idx + |name| < |buf|
    && buf[idx..idx + |name|] == name
    && buf[idx + |name|] == '\0'
  }

  class StringArena {
    const buf: array<char>
    var index: nat

    ghost predicate Valid()
      reads this, buf
    {
      buf.Length == ARENA_SIZE && index <= ARENA_SIZE && forall k :: index <= k < ARENA_SIZE ==> buf[k] == '\0'
    }

    constructor ()
      ensures Valid() && fresh(buf) && index == 0
    {
      buf := new char[ARENA_SIZE](_ => '\0');
      index := 0;
    }

    /** No result is the panic for a full arena. Nothing stored before is touched. */
    method Add(s: string) returns (r: Option<nat>)
      requires Valid()
      modifies this, buf
      ensures r.None? <==> old(index) + |s| >= ARENA_SIZE
      ensures Valid() && buf[..old(index)] == old(buf[..index])
      ensures r.Some? ==> r.value == old(index) && index == old(index) + |s| + 1 && StoredAt(buf[..], r.value, s)
      ensures r.None? ==> index == old(index) && buf[..] == old(buf[..])
    {
      var n := |s|;
      if index + n >= ARENA_SIZE { return None; }
      var idx := index;
      CopyIn(s);
      index := index + (n + 1);
      return Some(idx);
    }

    /** memcpy() to the free end of the arena. */
    method CopyIn(s: string)
      requires Valid() && index + |s| < ARENA_SIZE
      modifies buf
      ensures buf[..index] == old(buf[..index]) && StoredAt(buf[..], index, s)
      ensures forall k :: index + |s| <= k < ARENA_SIZE ==> buf[k] == '\0'
    {
      var i := 0;
      while i < |s|
        invariant i <= |s|
        invariant buf[..index] == old(buf[..index])
        invariant buf[index..index + i] == s[..i]
        invariant forall k :: index + i <= k < ARENA_SIZE ==> buf[k] == '\0'
      {
        buf[index + i] := s[i];
        i := i + 1;
      }
      assert buf[..][index..index + |s|] == buf[index..index + |s|] == s;
    }

    /** strcmp() == 0 on a stored string and a name. */
    method Equals(idx: nat, name: string, ghost stored: string) returns (r: bool)
      requires Valid() && StoredAt(buf[..], idx, stored) && '\0' !in stored && '\0' !in name
      ensures r <==> stored == name
    {
      var i := 0;
      while true
        invariant i <= |stored| && i <= |name| && stored[..i] == name[..i]
        decreases |name| - i
      {
        assert stored == buf[..][idx..idx + |stored|];
        var a := buf[idx + i];
        var b := if i < |name| then name[i] else '\0';
        assert a == if i < |stored| then stored[i] else '\0';
        assert i < |stored| ==> stored[i] in stored;
        assert i < |name| ==> name[i] in name;
        if a != b { return false; }
        if a == '\0' {
          assert stored == stored[..i] && name == name[..i];
          return true;
        }
        i := i + 1;
      }
    }
  }

  datatype Entry = Entry(name: string, tid: int)
  datatype Slot = Slot(idx: nat, tid: int)

  function MapOf(entries: seq<Entry>): map<string, int> {
    if entries == [] then map[]
    else
      var last := entries[|entries| - 1];
      MapOf(entries[..|entries| - 1])[last.name := last.tid]
  }

  ghost predicate DistinctNames(entries: seq<Entry>) {
    forall i, j :: 0 <= i < j < |entries| ==> entries[i].name != entries[j].name
  }

  lemma {:induction false} MapOfAt(entries: seq<Entry>, i: nat)
    requires DistinctNames(entries) && i < |entries|
    ensures entries[i].name in MapOf(entries) && MapOf(entries)[entries[i].name] == entries[i].tid
    decreases |entries|
  {
    if i == |entries| - 1 {
    } else {
      MapOfAt(entries[..|entries| - 1], i);
    }
  }

  lemma {:induction false} MapOfOnly(entries: seq<Entry>, name: string)
    requires forall i :: 0 <= i < |entries| ==> entries[i].name != name
    ensures name !in MapOf(entries)
  {
    if entries == [] {
    } else {
      MapOfOnly(entries[..|entries| - 1], name);
    }
  }

  lemma {:induction false} MapOfUpdate(entries: seq<Entry>, i: nat, tid: int)
    requires DistinctNames(entries) && i < |entries|
    ensures MapOf(entries[i := entries[i].(tid := tid)]) == MapOf(entries)[entries[i].name := tid]
    decreases |entries|
  {
    var e' := entries[i := entries[i].(tid := tid)];
    var n := |entries| - 1;
    if i < n {
      MapOfUpdate(entries[..n], i, tid);
      assert e'[..n] == entries[..n][i := entries[i].(tid := tid)];
    } else {
      assert e'[..n] == entries[..n];
    }
  }

  ghost predicate SlotOk(slot: Slot, e: Entry, buf: seq<char>, index: nat) {
    && slot.tid == e.tid && '\0' !in e.name
    && StoredAt(buf, slot.idx, e.name) && slot.idx + |e.name| < index
  }

  /** The slots name the entries' strings, which are stored one behind the other. */
  ghost predicate TableOk(slots: seq<Slot>, entries: seq<Entry>, buf: seq<char>, index: nat) {
    && |slots| == |entries| && DistinctNames(entries)
    && (forall i :: 0 <= i < |slots| ==> SlotOk(slots[i], entries[i], buf, index))
    && (forall i, j :: 0 <= i < j < |slots| ==> slots[i].idx + |entries[i].name| < slots[j].idx)
  }

  class NameServer {
    const strings: StringArena
    const names: array<Slot>
    var namesHead: nat
    /** What the table holds, in order. */
    ghost var entries: seq<Entry>

    ghost predicate Valid()
      reads this, names, strings, strings.buf
    {
      && strings.Valid() && names.Length == MAX_NAMES && namesHead <= MAX_NAMES
      && TableOk(names[..namesHead], entries, strings.buf[..], strings.index)
    }

    /** The registrations. */
    ghost function Registry(): map<string, int>
      reads this
    {
      MapOf(entries)
    }

    constructor ()
      ensures Valid() && Registry() == map[] && fresh(strings) && fresh(strings.buf) && fresh(names)
    {
      strings := new StringArena();
      names := new Slot[MAX_NAMES](_ => Slot(0, 0));
      namesHead := 0;
      entries := [];
    }

    /** The searching loop of both requests. */
    method Find(name: string) returns (r: Option<nat>)
      requires Valid() && '\0' !in name
      ensures r.Some? ==> r.value < namesHead && entries[r.value].name == name
      ensures r.None? ==> forall k :: 0 <= k < namesHead ==> entries[k].name != name
    {
      var i := 0;
      while i < namesHead
        invariant i <= namesHead && forall k :: 0 <= k < i ==> entries[k].name != name
      {
        assert SlotOk(names[..namesHead][i], entries[i], strings.buf[..], strings.index);
        var same := strings.Equals(names[i].idx, name, entries[i].name);
        if same { return Some(i); }
        i := i + 1;
      }
      return None;
    }

    /** The answer is (success, tid). */
    method WhoIs(name: string) returns (success: bool, tid: int)
      requires Valid() && IsName(name)
      ensures success <==> name in Registry() && Registry()[name] != -1
      ensures tid == if success then Registry()[name] else -1
    {
      var foundTid := -1;
      var i := Find(name);
      if i.Some? {
        assert SlotOk(names[..namesHead][i.value], entries[i.value], strings.buf[..], strings.index);
        MapOfAt(entries, i.value);
        foundTid := names[i.value].tid;
      } else {
        MapOfOnly(entries, name);
      }
      return foundTid != -1, foundTid;
    }

    /** False is one of the panics: a full table, or a new name that does not fit the arena. */
    method RegisterAs(senderTid: int, name: string, msgTid: int) returns (ok: bool)
      requires Valid() && IsName(name)
      modifies this, names, strings, strings.buf
      ensures ok <==> old(namesHead) < MAX_NAMES &&
                      (name in old(Registry()) || old(strings.index) + |name| < ARENA_SIZE)
      ensures ok ==> Valid()
      ensures ok ==> Registry() == old(Registry())[name := if name in old(Registry()) then msgTid else senderTid]
      ensures ok ==> strings.index == old(strings.index) + if name in old(Registry()) then 0 else |name| + 1
    {
      if namesHead >= MAX_NAMES { return false; }
      var i := Find(name);
      if i.Some? {
        MapOfAt(entries, i.value);
        Rename(i.value, msgTid);
        return true;
      }
      MapOfOnly(entries, name);
      ok := AddEntry(name, senderTid);
    }

    method Rename(i: nat, tid: int)
      requires Valid() && i < namesHead
      modifies this`entries, names
      ensures Valid() && Registry() == old(Registry())[old(entries)[i].name := tid]
    {
      MapOfUpdate(entries, i, tid);
      Renamed(names[..namesHead], entries, strings.buf[..], strings.index, i, tid);
      ghost var slots := names[..namesHead];
      names[i] := names[i].(tid := tid);
      assert names[..namesHead] == slots[i := slots[i].(tid := tid)];
      entries := entries[i := entries[i].(tid := tid)];
    }

    method AddEntry(name: string, tid: int) returns (ok: bool)
      requires Valid() && '\0' !in name && namesHead < MAX_NAMES
      requires forall k :: 0 <= k < namesHead ==> entries[k].name != name
      modifies this, names, strings, strings.buf
      ensures ok <==> old(strings.index) + |name| < ARENA_SIZE
      ensures ok ==> Valid() && Registry() == old(Registry())[name := tid]
      ensures ok ==> strings.index == old(strings.index) + |name| + 1
    {
      ghost var before, slots, end := strings.buf[..], names[..namesHead], strings.index;
      var idx := strings.Add(name);
      if !idx.Some? { return false; }
      Added(slots, entries, before, end, strings.buf[..], name, tid);
      names[namesHead] := Slot(idx.value, tid);
      namesHead := namesHead + 1;
      assert names[..namesHead] == slots + [Slot(end, tid)];
      entries := entries + [Entry(name, tid)];
      assert entries[..|entries| - 1] == old(entries);
      return true;
    }

    /** The table has an entry for each name of the registry. */
    lemma TableSize()
      requires Valid()
      ensures namesHead == |Registry()|
    {
      MapOfSize(entries);
    }

    /** One turn of the server loop; false is a panic. */
    method Handle(req: Request) returns (ok: bool, res: Response)
      requires Valid() && IsName(NameIn(req))
      modifies this, names, strings, strings.buf
      ensures ok <==> Fits(old(Registry()), old(strings.index), req)
      ensures ok ==> Valid() && Registry() == After(old(Registry()), req) && res == Reply(old(Registry()), req)
      ensures ok ==> strings.index == old(strings.index) + Need(old(Registry()), req)
    {
      TableSize();
      match req {
        case WhoIsReq(name) =>
          var success, tid := WhoIs(name);
          return true, WhoIsRes(success, tid);
        case RegisterReq(from, name, tid) =>
          ok := RegisterAs(from, name, tid);
          res := RegisterRes;
        case ShutdownReq =>
          return true, ShutdownRes;
      }
    }

    /** The server loop, up to a shutdown; false if a request made it panic. */
    method Serve(requests: seq<Request>) returns (ok: bool, replies: seq<Response>)
      requires Valid() && Registry() == map[] && strings.index == 0
      requires forall i :: 0 <= i < |requests| ==> IsName(NameIn(requests[i]))
      modifies this, names, strings, strings.buf
      ensures ok <==> AllFit(ToShutdown(requests))
      ensures ok ==> Valid() && Registry() == Registered(ToShutdown(requests))
      ensures ok ==> replies == Replies(ToShutdown(requests))
    {
      replies := [];
      ghost var handled := ToShutdown(requests);
      ToShutdownOk(requests);
      hide TableOk, StoredAt, Fits, After, Reply, Need, ToShutdown;
      var i, done := 0, false;
      while i < |requests| && !done
        invariant i <= |handled| && Valid() && AllFit(handled[..i])
        invariant done <==> i > 0 && handled[i - 1].ShutdownReq?
        invariant Registry() == Registered(handled[..i]) && strings.index == Used(handled[..i])
        invariant replies == Replies(handled[..i])
      {
        assert handled[..i + 1][..i] == handled[..i] && handled[..i + 1][i] == requests[i];
        var fine, res := Handle(requests[i]);
        if !fine {
          NeverFits(handled, i + 1);
          return false, replies;
        }
        replies := replies + [res];
        done := requests[i].ShutdownReq?;
        i := i + 1;
      }
      assert handled[..i] == handled;
      ok := true;
    }
  }

  /** `from` is the sender of a registration, `tid` the task it names. */
  datatype Request = WhoIsReq(name: string) | RegisterReq(from: int, name: string, tid: int) | ShutdownReq
  datatype Response = WhoIsRes(success: bool, tid: int) | RegisterRes | ShutdownRes

  function NameIn(req: Request): string { if req.ShutdownReq? then "" else req.name }

  /** The registry after a request: a new name belongs to the sender, a known one to the task named. */
  function After(registry: map<string, int>, req: Request): map<string, int> {
    if !req.RegisterReq? then registry
    else registry[req.name := if req.name in registry then req.tid else req.from]
  }

  function Reply(registry: map<string, int>, req: Request): Response {
    match req
    case WhoIsReq(name) =>
      if name in registry && registry[name] != -1 then WhoIsRes(true, registry[name]) else WhoIsRes(false, -1)
    case RegisterReq(_, _, _) => RegisterRes
    case ShutdownReq => ShutdownRes
  }

  /** The places of the arena that a request takes. */
  function Need(registry: map<string, int>, req: Request): nat {
    if req.RegisterReq? && req.name !in registry then |req.name| + 1 else 0
  }

  /** There is room for a registration: in the table, also for a known name, and in the arena. */
  predicate Fits(registry: map<string, int>, used: nat, req: Request) {
    req.RegisterReq? ==>
      |registry| < MAX_NAMES && (req.name in registry || used + |req.name| < ARENA_SIZE)
  }

  function Registered(requests: seq<Request>): map<string, int> {
    if requests == [] then map[]
    else After(Registered(requests[..|requests| - 1]), requests[|requests| - 1])
  }

  function Replies(requests: seq<Request>): seq<Response> {
    if requests == [] then []
    else
      var front := requests[..|requests| - 1];
      Replies(front) + [Reply(Registered(front), requests[|requests| - 1])]
  }

  function Used(requests: seq<Request>): nat {
    if requests == [] then 0
    else
      var front := requests[..|requests| - 1];
      Used(front) + Need(Registered(front), requests[|requests| - 1])
  }

  predicate AllFit(requests: seq<Request>) {
    requests == [] ||
    var front := requests[..|requests| - 1];
    AllFit(front) && Fits(Registered(front), Used(front), requests[|requests| - 1])
  }

  /** The requests up to the first shutdown. */
  function ToShutdown(requests: seq<Request>): seq<Request> {
    if requests == [] then []
    else [requests[0]] + if requests[0].ShutdownReq? then [] else ToShutdown(requests[1..])
  }

  lemma {:induction false} ToShutdownOk(requests: seq<Request>)
    ensures var h := ToShutdown(requests);
            && |h| <= |requests| && h == requests[..|h|]
            && (forall i :: 0 <= i < |h| - 1 ==> !h[i].ShutdownReq?)
            && (|h| < |requests| ==> h != [] && h[|h| - 1].ShutdownReq?)
  {
    if requests == [] {
    } else if requests[0].ShutdownReq? {
      assert ToShutdown(requests) == [requests[0]];
    } else {
      ToShutdownOk(requests[1..]);
      var rest := ToShutdown(requests[1..]);
      assert ToShutdown(requests) == [requests[0]] + rest;
      assert requests[..1 + |rest|] == [requests[0]] + requests[1..][..|rest|];
    }
  }

  /** A server that has panicked serves no more. */
  lemma {:induction false} NeverFits(requests: seq<Request>, i: nat)
    requires i <= |requests| && !AllFit(requests[..i])
    ensures !AllFit(requests)
    decreases |requests|
  {
    if i == |requests| {
      assert requests[..i] == requests;
    } else {
      assert requests[..|requests| - 1][..i] == requests[..i];
      NeverFits(requests[..|requests| - 1], i);
    }
  }

  /** The last request that registers `name` is number i. */
  ghost predicate LastRegistration(requests: seq<Request>, name: string, i: int) {
    && 0 <= i < |requests| && requests[i].RegisterReq? && requests[i].name == name
    && (forall j :: i < j < |requests| && requests[j].RegisterReq? ==> requests[j].name != name)
  }

  /** A name is known if it has been registered; it then belongs to the task named by its last
      registration, or to that one's sender if it was the first - for clients that name themselves, to
      the latest registrant in any case. */
  lemma {:induction false} LatestRegistrant(requests: seq<Request>, name: string)
    ensures name in Registered(requests) <==> exists i :: LastRegistration(requests, name, i)
    ensures forall i :: LastRegistration(requests, name, i) ==>
              name in Registered(requests) && Registered(requests)[name] ==
                if name in Registered(requests[..i]) then requests[i].tid else requests[i].from
    decreases |requests|
  {
    if requests == [] {
    } else {
      var n := |requests| - 1;
      var before := requests[..n];
      LatestRegistrant(before, name);
      if requests[n].RegisterReq? && requests[n].name == name {
        assert LastRegistration(requests, name, n);
      } else {
        forall i ensures LastRegistration(requests, name, i) <==> LastRegistration(before, name, i) {}
        forall i | LastRegistration(before, name, i) ensures before[..i] == requests[..i] {}
      }
    }
  }

  predicate Registers(req: Request, name: string) { req.RegisterReq? && req.name == name }

  lemma {:induction false} KnownIfRegistered(requests: seq<Request>, name: string)
    ensures name in Registered(requests) <==> exists i :: 0 <= i < |requests| && Registers(requests[i], name)
  {
    if requests == [] {
    } else {
      var front, last := requests[..|requests| - 1], requests[|requests| - 1];
      KnownIfRegistered(front, name);
      assert requests == front + [last];
    }
  }

  lemma {:induction false} RepliesAt(requests: seq<Request>, i: nat)
    requires i < |requests|
    ensures |Replies(requests)| == |requests| && Replies(requests)[i] == Reply(Registered(requests[..i]), requests[i])
    decreases |requests|
  {
    var front := requests[..|requests| - 1];
    if i == |requests| - 1 {
      if front == [] {
      } else {
        RepliesAt(front, 0);
      }
    } else {
      RepliesAt(front, i);
      assert front[..i] == requests[..i];
    }
  }

  /** Whom the last registration of a name, number j, leaves it to: the first one to its sender, a later one to
      the task it names. */
  function Owner(requests: seq<Request>, name: string, j: nat): int
    requires j < |requests| && requests[j].RegisterReq?
  {
    if forall k :: 0 <= k < j ==> !Registers(requests[k], name) then requests[j].from else requests[j].tid
  }

  /** Who-is is answered with the owner the last registration before it left the name to, and with a failure and
      -1 if there is none, or if that owner is -1. */
  lemma WhoIsAnswered(requests: seq<Request>, i: nat, j: nat)
    requires i < |requests| && requests[i].WhoIsReq?
    ensures |Replies(requests)| == |requests|
    ensures var name, reply := requests[i].name, Replies(requests)[i];
            && ((forall k :: 0 <= k < i ==> !Registers(requests[k], name)) ==> reply == WhoIsRes(false, -1))
            && (LastRegistration(requests[..i], name, j) ==>
                  var owner := Owner(requests, name, j);
                  reply == if owner == -1 then WhoIsRes(false, -1) else WhoIsRes(true, owner))
  {
    var name, before := requests[i].name, requests[..i];
    hide Replies, Registered;
    RepliesAt(requests, i);
    KnownIfRegistered(before, name);
    LatestRegistrant(before, name);
    if LastRegistration(before, name, j) {
      assert before[..j] == requests[..j];
      KnownIfRegistered(requests[..j], name);
    }
  }

  lemma {:induction false} MapOfSize(entries: seq<Entry>)
    requires DistinctNames(entries)
    ensures |MapOf(entries)| == |entries|
  {
    if entries == [] {
    } else {
      var front, last := entries[..|entries| - 1], entries[|entries| - 1];
      MapOfSize(front);
      MapOfOnly(front, last.name);
      assert MapOf(front)[last.name := last.tid].Keys == MapOf(front).Keys + {last.name};
    }
  }

  lemma Renamed(slots: seq<Slot>, entries: seq<Entry>, buf: seq<char>, index: nat, i: nat, tid: int)
    requires TableOk(slots, entries, buf, index) && i < |slots|
    ensures TableOk(slots[i := slots[i].(tid := tid)], entries[i := entries[i].(tid := tid)], buf, index)
  {
    assert SlotOk(slots[i], entries[i], buf, index);
  }

  lemma Added(slots: seq<Slot>, entries: seq<Entry>, before: seq<char>, index: nat, after: seq<char>, name: string,
              tid: int)
    requires TableOk(slots, entries, before, index) && '\0' !in name
    requires |before| == |after| && index <= |before| && after[..index] == before[..index]
    requires StoredAt(after, index, name)
    requires forall k :: 0 <= k < |entries| ==> entries[k].name != name
    ensures TableOk(slots + [Slot(index, tid)], entries + [Entry(name, tid)], after, index + |name| + 1)
  {
    forall k | 0 <= k < |slots| ensures SlotOk(slots[k], entries[k], after, index + |name| + 1) {
      assert SlotOk(slots[k], entries[k], before, index);
      StillStored(before, after, index, slots[k].idx, entries[k].name);
    }
    assert forall k :: 0 <= k < |slots| ==> SlotOk(slots[k], entries[k], before, index);
  }

  lemma StillStored(before: seq<char>, after: seq<char>, index: nat, idx: nat, name: string)
    requires |before| == |after| && index <= |before| && after[..index] == before[..index]
    requires StoredAt(before, idx, name) && idx + |name| < index
    ensures StoredAt(after, idx, name)
  {
    assert forall k :: 0 <= k < index ==> after[k] == after[..index][k] == before[..index][k] == before[k];
    assert after[idx..idx + |name|] == before[idx..idx + |name|];
  }
}
