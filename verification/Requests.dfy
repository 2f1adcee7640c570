/**
  The requests that create connections and expectations: on every path, over
  all error exits and module loads, the locks end as they began and every
  reference is dropped once or owned by what was inserted. What the rest of
  the kernel answers is a parameter.
 */
module Requests {
  import opened Conntrack

  const EINVAL := -22
  const EEXIST := -17
  const ENOENT := -2
  const ENOMEM := -12
  const EBUSY := -16
  const EAGAIN := -11
  const EOPNOTSUPP := -95

  /** What the handlers take and give back. */
  datatype Ledger = Ledger(rcu: nat, mutex: bool, ctLock: bool, expLock: bool,
                           use: multiset<ConnId>, live: set<ConnId>, table: set<ConnId>, masters: map<ConnId, ConnId>,
                           expUse: multiset<ConnId>, expLive: set<ConnId>, expTable: set<ConnId>)

  /**
    The answers to a NAT setup: the hook, loading its module, the hook again, its verdict, loading the family's
    module.
   */
  datatype Nat = Nat(hook: bool, loads: bool, hookThen: bool, verdict: int, loadsFamily: bool)

  /** A helper request: absent, with the verdict on an implicit helper; or named. */
  datatype Help = Implicit(verdict: int) | Named(parse: int, found: bool, loads: bool, foundThen: bool, extension: bool)

  /**
    A change of sequence adjustments: whether the connection has them, and the verdict on each direction that is asked
    for.
   */
  datatype Adjust = Adjust(present: bool, orig: Option<int>, reply: Option<int>)

  datatype Master = Master(parse: int, found: Option<ConnId>)

  /** A request to create a connection: what it asks for, and what the kernel answers. */
  datatype Create = Create(alloc: Option<ConnId>, timeout: bool, help: Help, natSetup: Option<(Nat, Nat)>,
                           status: Option<int>, adjust: Option<Adjust>, protoinfo: Option<int>,
                           synproxy: Option<int>, master: Option<Master>, insert: int)

  /**
    The helper part of a change: parsing, a master, the same name, an empty name, the lookup, the extension, the same
    helper.
   */
  datatype ChangeHelp = ChangeHelp(parse: int, hasMaster: bool, hasHelp: bool, sameName: bool, empty: bool, found: bool,
                                   same: bool)

  datatype Change = Change(forbidden: bool, help: Option<ChangeHelp>, timeout: Option<int>, status: Option<int>,
                           protoinfo: Option<int>, adjust: Option<Adjust>, synproxy: Option<int>, labels: Option<int>)

  datatype New = New(zone: int, orig: Option<int>, reply: Option<int>, found: Option<ConnId>, create: bool,
                     exclusive: bool, sameProto: bool, body: Create, change: Change)

  /** Making an expectation: the helper extension, the class, the allocation, a named function, the NAT part. */
  datatype AllocExpect = AllocExpect(hasHelp: bool, classOk: bool, alloc: Option<ConnId>, functionFound: Option<bool>,
                                     natPart: Option<int>)

  /** A helper named for an expectation: found at once, its module loads, found then. */
  datatype NamedHelper = NamedHelper(found: bool, loads: bool, foundThen: bool)

  /**
    A request to create an expectation: the three tuples, the master, the helper, the allocation, and the insertion.
   */
  datatype Expect = Expect(tuple: int, mask: int, masterTuple: int, master: Option<ConnId>, helper: Option<NamedHelper>,
                           alloc: AllocExpect, related: int)

  /** A request for an expectation: one that exists already may be changed. */
  datatype NewExpect = NewExpect(complete: bool, zone: int, tuple: int, present: bool, create: bool, exclusive: bool,
                                 change: int, body: Expect)

  lemma PutBack(u: multiset<ConnId>, c: ConnId)
    ensures (u + multiset{c}) - multiset{c} == u
  {
  }

  lemma PutOneOfTwo(u: multiset<ConnId>, c: ConnId)
    ensures (u + multiset{c, c}) - multiset{c} == u + multiset{c}
  {
  }

  lemma PutOneOfThree(u: multiset<ConnId>, c: ConnId)
    ensures (u + multiset{c} + multiset{c, c}) - multiset{c} == u + multiset{c, c}
  {
  }

  lemma FreeBack(s: set<ConnId>, c: ConnId)
    requires c !in s
    ensures (s + {c}) - {c} == s
  {
  }

  function One(c: Option<ConnId>): multiset<ConnId> {
    if c.Some? then multiset{c.value} else multiset{}
  }

  function MasterOf(r: Create): Option<ConnId> {
    if r.master.Some? then r.master.value.found else None
  }

  /** The state after a creation: `refs` references on the new entry, and one that it owns on its master. */
  function AfterCreate(l: Ledger, r: Create, refs: multiset<ConnId>): Ledger
    requires r.alloc.Some?
  {
    var c := r.alloc.value;
    l.(live := l.live + {c}, table := l.table + {c}, use := l.use + One(MasterOf(r)) + refs,
       masters := if MasterOf(r).Some? then l.masters[c := MasterOf(r).value] else l.masters)
  }

  /** The state after an expectation was inserted: the table and its timer refer to it. */
  function AfterExpect(l: Ledger, e: ConnId): Ledger {
    l.(expUse := l.expUse + multiset{e, e}, expLive := l.expLive + {e}, expTable := l.expTable + {e})
  }

  // ---------------------------------------------------------------- the answer to a request, read off it

  /** The first of two answers if it is an error, else the second. */
  function Then(first: int, second: int): int {
    if first < 0 then first else second
  }

  /** No error where nothing is asked for. */
  function IfAsked(answer: Option<int>): int {
    if answer.Some? then answer.value else 0
  }

  function Unless(ok: bool, error: int): int {
    if ok then 0 else error
  }

  /** A missing hook or module is not supported; a module that was loaded means: try again. */
  function NatCode(n: Nat): int {
    if n.hook && n.verdict != -11 then n.verdict
    else if n.hook && n.loadsFamily then -11
    else if !n.hook && n.loads && n.hookThen then -11
    else -95
  }

  function HelpCode(h: Help): int {
    match h
    case Implicit(verdict) => verdict
    case Named(parse, found, loads, foundThen, extension) =>
      Then(parse, if found then Unless(extension, -12) else if loads && foundThen then -11 else -95)
  }

  /** Both directions, if the connection has the extension. */
  function AdjustCode(a: Option<Adjust>): int {
    if a.Some? && a.value.present then Then(IfAsked(a.value.orig), IfAsked(a.value.reply)) else 0
  }

  function MasterCode(m: Option<Master>): int {
    if m.None? then 0 else Then(m.value.parse, Unless(m.value.found.Some?, -2))
  }

  function FillCode(r: Create): int {
    Then(IfAsked(r.status), Then(AdjustCode(r.adjust), Then(IfAsked(r.protoinfo), IfAsked(r.synproxy))))
  }

  /** The first failure of a creation, in its order; not negative if there is none. */
  function CreateCode(r: Create): int {
    Then(Unless(r.alloc.Some?, -12), Then(Unless(r.timeout, -22), Then(HelpCode(r.help), Then(NatCodes(r.natSetup),
    Then(FillCode(r), Then(MasterCode(r.master), r.insert))))))
  }

  function NatCodes(request: Option<(Nat, Nat)>): int {
    if request.None? then 0 else Then(NatCode(request.value.0), NatCode(request.value.1))
  }

  /** A change of helper: none for a connection with a master, and only to the helper it has. */
  function ChangeHelpCode(h: ChangeHelp): int {
    Then(h.parse,
         if h.hasMaster then Unless(h.hasHelp && h.sameName, -16)
         else if h.empty then 0
         else if h.found && h.hasHelp then Unless(h.same, -16)
         else -95)
  }

  function ChangeCode(c: Change): int {
    Then(Unless(!c.forbidden, -95), Then(if c.help.Some? then ChangeHelpCode(c.help.value) else 0,
    Then(IfAsked(c.timeout), Then(IfAsked(c.status), Then(IfAsked(c.protoinfo),
    Then(AdjustCode(c.adjust), Then(IfAsked(c.synproxy), IfAsked(c.labels))))))))
  }

  /** There is no connection to change: none is named, or none is found. */
  predicate Missing(r: New) {
    (r.orig.None? && r.reply.None?) || r.found.None?
  }

  function NewCode(r: New): int {
    Then(r.zone, Then(IfAsked(r.orig), Then(IfAsked(r.reply),
    if Missing(r) then
      Then(Unless(r.create, -2), Then(Unless(r.orig.Some? && r.reply.Some? && r.sameProto, -22), CreateCode(r.body)))
    else if r.exclusive then -17
    else ChangeCode(r.change))))
  }

  function NamedCode(h: Option<NamedHelper>): int {
    if h.None? || h.value.found then 0 else if h.value.loads && h.value.foundThen then -11 else -95
  }

  function AllocCode(a: AllocExpect): int {
    Then(Unless(a.hasHelp, -95), Then(Unless(a.classOk, -22), Then(Unless(a.alloc.Some?, -12),
    Then(Unless(a.functionFound != Some(false), -22), IfAsked(a.natPart)))))
  }

  function ExpectCode(x: Expect): int {
    Then(x.tuple, Then(x.mask, Then(x.masterTuple, Then(Unless(x.master.Some?, -2), Then(NamedCode(x.helper),
    Then(AllocCode(x.alloc), x.related))))))
  }

  function NewExpectCode(r: NewExpect): int {
    Then(Unless(r.complete, -22), Then(r.zone, Then(r.tuple,
    if !r.present then Then(Unless(r.create, -2), ExpectCode(r.body))
    else if r.exclusive then -17
    else r.change)))
  }

  /** The answer `err` says what the code says: the same error, or none. */
  predicate Says(err: int, code: int) {
    if code < 0 then err == code else err >= 0
  }

  /** A creation succeeds exactly if each of its parts does. */
  lemma CreatesIff(r: Create)
    ensures CreateCode(r) >= 0 <==>
            && r.alloc.Some? && r.timeout
            && (match r.help
                case Implicit(verdict) => verdict >= 0
                case Named(parse, found, _, _, extension) => parse >= 0 && found && extension)
            && (r.natSetup.Some? ==>
                  var (src, dst) := r.natSetup.value;
                  src.hook && src.verdict >= 0 && dst.hook && dst.verdict >= 0)
            && (r.status.Some? ==> r.status.value >= 0)
            && (r.adjust.Some? && r.adjust.value.present ==>
                  var a := r.adjust.value;
                  (a.orig.Some? ==> a.orig.value >= 0) && (a.reply.Some? ==> a.reply.value >= 0))
            && (r.protoinfo.Some? ==> r.protoinfo.value >= 0) && (r.synproxy.Some? ==> r.synproxy.value >= 0)
            && (r.master.Some? ==> r.master.value.parse >= 0 && r.master.value.found.Some?)
            && r.insert >= 0
  {
  }

  /** A change succeeds exactly if it is none of those that are not supported and each of its parts does. */
  lemma ChangesIff(c: Change)
    ensures ChangeCode(c) >= 0 <==>
            && !c.forbidden
            && (c.help.Some? ==>
                  var h := c.help.value;
                  && h.parse >= 0
                  && if h.hasMaster then h.hasHelp && h.sameName else h.empty || (h.found && h.hasHelp && h.same))
            && (c.timeout.Some? ==> c.timeout.value >= 0) && (c.status.Some? ==> c.status.value >= 0)
            && (c.protoinfo.Some? ==> c.protoinfo.value >= 0)
            && (c.adjust.Some? && c.adjust.value.present ==>
                  var a := c.adjust.value;
                  (a.orig.Some? ==> a.orig.value >= 0) && (a.reply.Some? ==> a.reply.value >= 0))
            && (c.synproxy.Some? ==> c.synproxy.value >= 0) && (c.labels.Some? ==> c.labels.value >= 0)
  {
  }

  /** An expectation is created exactly if its tuples parse, its master and helper are found, and it can be inserted. */
  lemma ExpectsIff(x: Expect)
    ensures ExpectCode(x) >= 0 <==>
            && x.tuple >= 0 && x.mask >= 0 && x.masterTuple >= 0 && x.master.Some?
            && (x.helper.Some? ==> x.helper.value.found)
            && x.alloc.hasHelp && x.alloc.classOk && x.alloc.alloc.Some?
            && x.alloc.functionFound != Some(false) && (x.alloc.natPart.Some? ==> x.alloc.natPart.value >= 0)
            && x.related >= 0
  {
  }

  /** The handlers' world. The handlers run in process context, with the subsystem's mutex held and outside RCU. */
  class Subsystem {
    var rcu: nat
    var mutex: bool
    var ctLock: bool
    var expLock: bool
    var use: multiset<ConnId>
    var live: set<ConnId>
    var table: set<ConnId>
    var masters: map<ConnId, ConnId>
    var expUse: multiset<ConnId>
    var expLive: set<ConnId>
    var expTable: set<ConnId>

    constructor ()
      ensures Now() == Ledger(0, true, false, false, multiset{}, {}, {}, map[], multiset{}, {}, {})
    {
      rcu, mutex, ctLock, expLock, use, live, table, masters := 0, true, false, false, multiset{}, {}, {}, map[];
      expUse, expLive, expTable := multiset{}, {}, {};
    }

    function Now(): Ledger
      reads this
    {
      Ledger(rcu, mutex, ctLock, expLock, use, live, table, masters, expUse, expLive, expTable)
    }

    // -------------------------------------------------------------- primitives

    method RcuLock()
      modifies this
      ensures Now() == old(Now()).(rcu := old(rcu) + 1)
    {
      rcu := rcu + 1;
    }

    method RcuUnlock()
      requires rcu > 0
      modifies this
      ensures Now() == old(Now()).(rcu := old(rcu) - 1)
    {
      rcu := rcu - 1;
    }

    method MutexLock()
      requires !mutex && rcu == 0
      modifies this
      ensures Now() == old(Now()).(mutex := true)
    {
      mutex := true;
    }

    method MutexUnlock()
      requires mutex
      modifies this
      ensures Now() == old(Now()).(mutex := false)
    {
      mutex := false;
    }

    /** request_module sleeps: never inside RCU, never under a spin lock. */
    method LoadModule(answer: bool) returns (ok: bool)
      requires rcu == 0 && !ctLock && !expLock
      ensures ok == answer
    {
      ok := answer;
    }

    /** nf_conntrack_find_get: what is found is in the table, and gets a reference. */
    method FindGet(found: Option<ConnId>)
      requires found.Some? ==> found.value in table
      modifies this
      ensures Now() == old(Now()).(use := if found.Some? then old(use) + multiset{found.value} else old(use))
    {
      if found.Some? {
        use := use + multiset{found.value};
      }
    }

    method Put(c: ConnId)
      requires use[c] > 0
      modifies this
      ensures Now() == old(Now()).(use := old(use) - multiset{c})
    {
      use := use - multiset{c};
    }

    method Alloc(c: ConnId)
      requires c !in live && c !in table && use[c] == 0
      modifies this
      ensures Now() == old(Now()).(live := old(live) + {c})
    {
      live := live + {c};
    }

    /** nf_conntrack_free: only an entry that nobody refers to and that was never inserted. */
    method Free(c: ConnId)
      requires c in live && c !in table && use[c] == 0
      modifies this
      ensures Now() == old(Now()).(live := old(live) - {c})
    {
      live := live - {c};
    }

    /**
      nf_conntrack_hash_check_insert: an inserted entry has the table's reference, the caller's, and owns that on its
      master.
     */
    method Insert(c: ConnId, master: Option<ConnId>, answer: int) returns (err: int)
      requires c in live && c !in table && use[c] == 0 && rcu > 0
      modifies this
      ensures err == answer
      ensures Now() == if answer < 0 then old(Now()) else
                old(Now()).(use := old(use) + multiset{c, c}, table := old(table) + {c},
                            masters := if master.Some? then old(masters)[c := master.value] else old(masters))
    {
      err := answer;
      if answer >= 0 {
        use := use + multiset{c, c};
        table := table + {c};
        if master.Some? {
          masters := masters[c := master.value];
        }
      }
    }

    // -------------------------------------------------------------- NAT

    /**
      ctnetlink_parse_nat_setup: enters and leaves inside RCU, with the mutex, though it lets go of both to load a
      module.
     */
    method ParseNatSetup(n: Nat) returns (err: int)
      requires rcu == 1 && mutex && !ctLock && !expLock
      modifies this
      ensures Now() == old(Now())
      ensures err == NatCode(n)
    {
      if !n.hook {
        RcuUnlock();
        MutexUnlock();
        var ok := LoadModule(n.loads);
        if !ok {
          MutexLock();
          RcuLock();
          return EOPNOTSUPP;
        }
        MutexLock();
        RcuLock();
        if n.hookThen {
          return EAGAIN;
        }
        return EOPNOTSUPP;
      }
      err := n.verdict;
      if err == EAGAIN {
        RcuUnlock();
        MutexUnlock();
        var ok := LoadModule(n.loadsFamily);
        if !ok {
          MutexLock();
          RcuLock();
          return EOPNOTSUPP;
        }
        MutexLock();
        RcuLock();
      }
    }

    method SetupNat(request: Option<(Nat, Nat)>) returns (err: int)
      requires rcu == 1 && mutex && !ctLock && !expLock
      modifies this
      ensures Now() == old(Now()) && err == NatCodes(request)
    {
      if request.None? {
        return 0;
      }
      err := ParseNatSetup(request.value.0);
      if err < 0 {
        return;
      }
      err := ParseNatSetup(request.value.1);
    }

    // -------------------------------------------------------------- changes

    /** ctnetlink_change_seq_adj: the connection's lock is free again on every path. */
    method ChangeSeqAdj(a: Adjust) returns (err: int)
      requires !ctLock
      modifies this
      ensures Now() == old(Now()) && err <= 0 && Says(err, AdjustCode(Some(a)))
    {
      if !a.present {
        return 0;
      }
      ctLock := true;
      if a.orig.Some? && a.orig.value < 0 {
        ctLock := false;
        return a.orig.value;
      }
      if a.reply.Some? && a.reply.value < 0 {
        ctLock := false;
        return a.reply.value;
      }
      ctLock := false;
      return 0;
    }

    method ChangeHelper(h: ChangeHelp) returns (err: int)
      modifies this
      ensures Now() == old(Now()) && err == ChangeHelpCode(h)
    {
      if h.parse < 0 {
        return h.parse;
      }
      if h.hasMaster {
        err := EBUSY;
        if h.hasHelp {
          RcuLock();
          if h.sameName {
            err := 0;
          }
          RcuUnlock();
        }
        return;
      }
      if h.empty {
        return 0;
      }
      RcuLock();
      if !h.found {
        RcuUnlock();
        return EOPNOTSUPP;
      }
      if h.hasHelp {
        err := if h.same then 0 else EBUSY;
      } else {
        err := EOPNOTSUPP;
      }
      RcuUnlock();
    }

    method ChangeConntrack(c: Change) returns (err: int)
      requires !ctLock
      modifies this
      ensures Now() == old(Now()) && err <= 0 && Says(err, ChangeCode(c))
    {
      hide ChangeHelpCode;
      if c.forbidden {
        return EOPNOTSUPP;
      }
      if c.help.Some? {
        err := ChangeHelper(c.help.value);
        if err < 0 {
          return;
        }
      }
      if c.timeout.Some? && c.timeout.value < 0 {
        return c.timeout.value;
      }
      if c.status.Some? && c.status.value < 0 {
        return c.status.value;
      }
      if c.protoinfo.Some? && c.protoinfo.value < 0 {
        return c.protoinfo.value;
      }
      if c.adjust.Some? {
        err := ChangeSeqAdj(c.adjust.value);
        if err < 0 {
          return;
        }
      }
      if c.synproxy.Some? && c.synproxy.value < 0 {
        return c.synproxy.value;
      }
      if c.labels.Some? && c.labels.value < 0 {
        return c.labels.value;
      }
      return 0;
    }

    // -------------------------------------------------------------- creating a connection

    /** Where a part of the creation leaves its caller: going on, or at one of the labels, with the error. */
    method AssignHelper(h: Help) returns (err: int, inRcu: bool)
      requires rcu == 1 && mutex && !ctLock && !expLock
      modifies this
      ensures Now() == old(Now()).(rcu := if inRcu then 1 else 0)
      ensures err == HelpCode(h) && (err >= 0 ==> inRcu)
    {
      inRcu := true;
      match h
      case Implicit(verdict) => err := verdict;
      case Named(parse, found, loads, foundThen, extension) =>
        if parse < 0 {
          return parse, true;
        }
        if !found {
          RcuUnlock();
          var ok := LoadModule(loads);
          if !ok {
            return EOPNOTSUPP, false;
          }
          RcuLock();
          if foundThen {
            return EAGAIN, true;
          }
          RcuUnlock();
          return EOPNOTSUPP, false;
        }
        err := if extension then 0 else ENOMEM;
    }

    /** From the extensions to the mark. */
    method FillIn(r: Create) returns (err: int)
      requires rcu == 1 && !ctLock
      modifies this
      ensures Now() == old(Now()) && Says(err, FillCode(r))
    {
      if r.status.Some? && r.status.value < 0 {
        return r.status.value;
      }
      if r.adjust.Some? {
        err := ChangeSeqAdj(r.adjust.value);
        if err < 0 {
          return;
        }
      }
      if r.protoinfo.Some? && r.protoinfo.value < 0 {
        return r.protoinfo.value;
      }
      if r.synproxy.Some? && r.synproxy.value < 0 {
        return r.synproxy.value;
      }
      return 0;
    }

    /** The master of the new entry, with a reference. */
    method FindMaster(m: Option<Master>) returns (err: int, master: Option<ConnId>)
      requires m.Some? && m.value.found.Some? ==> m.value.found.value in table
      modifies this
      ensures Now() == old(Now()).(use := old(use) + One(master))
      ensures Says(err, MasterCode(m))
      ensures master == if err >= 0 && m.Some? then m.value.found else None
    {
      master := None;
      if m.None? {
        return 0, None;
      }
      if m.value.parse < 0 {
        return m.value.parse, None;
      }
      FindGet(m.value.found);
      if m.value.found.None? {
        return ENOENT, None;
      }
      return 0, m.value.found;
    }

    /** The requests the kernel can be asked: allocation gives something new, lookups find what is there. */
    predicate Possible(r: Create)
      reads this
    {
      && (r.alloc.Some? ==> r.alloc.value !in live && r.alloc.value !in table && use[r.alloc.value] == 0)
      && (r.master.Some? && r.master.value.found.Some? ==> r.master.value.found.value in table)
    }

    /**
      ctnetlink_create_conntrack. Either nothing at all has changed, or exactly this: the new entry is in the table
      with the table's reference and the caller's, and owns one reference on its master.
     */
    method CreateConntrack(r: Create) returns (err: int)
      requires rcu == 0 && mutex && !ctLock && !expLock && Possible(r)
      modifies this
      ensures Says(err, CreateCode(r))
      ensures err < 0 ==> Now() == old(Now())
      ensures err >= 0 ==> r.alloc.Some? && Now() == AfterCreate(old(Now()), r, multiset{r.alloc.value, r.alloc.value})
    {
      if r.alloc.None? {
        return ENOMEM;
      }
      var c := r.alloc.value;
      Alloc(c);
      if !r.timeout {
        Free(c);
        return EINVAL;
      }
      RcuLock();
      var inRcu;
      err, inRcu := AssignHelper(r.help);
      if err >= 0 {
        err := SetupNat(r.natSetup);
      }
      if err >= 0 {
        err := FillIn(r);
      }
      if err >= 0 {
        err := InsertWithMaster(c, r);
        if err >= 0 {
          RcuUnlock();
          return;
        }
      }
      if inRcu {
        RcuUnlock();
      }
      Free(c);
      FreeBack(old(live), c);
    }

    /** The end of the creation: the master, the insertion, and putting the master back if that fails. */
    method InsertWithMaster(c: ConnId, r: Create) returns (err: int)
      requires c in live && c !in table && use[c] == 0 && rcu > 0
      requires MasterOf(r).Some? ==> MasterOf(r).value in table
      modifies this
      ensures Says(err, Then(MasterCode(r.master), r.insert))
      ensures err < 0 ==> Now() == old(Now())
      ensures err >= 0 ==>
                Now() == old(Now()).(table := old(table) + {c}, use := old(use) + One(MasterOf(r)) + multiset{c, c},
                                     masters := if MasterOf(r).Some? then old(masters)[c := MasterOf(r).value]
                                                else old(masters))
    {
      var master;
      err, master := FindMaster(r.master);
      if err < 0 {
        return;
      }
      err := Insert(c, master, r.insert);
      if err < 0 && master.Some? {
        PutBack(old(use), master.value);
        Put(master.value);
      }
    }

    /** Creating, then putting the caller's reference. */
    method CreateAndReport(r: Create) returns (err: int)
      requires rcu == 0 && mutex && !ctLock && !expLock && Possible(r)
      modifies this
      ensures err <= 0 && Says(err, CreateCode(r))
      ensures err < 0 ==> Now() == old(Now())
      ensures err == 0 ==> r.alloc.Some? && Now() == AfterCreate(old(Now()), r, multiset{r.alloc.value})
    {
      err := CreateConntrack(r);
      if err < 0 {
        return;
      }
      PutOneOfTwo(old(use) + One(MasterOf(r)), r.alloc.value);
      Put(r.alloc.value);
      err := 0;
    }

    /**
      ctnetlink_new_conntrack: the locks and every count are as before, except after a creation, which leaves the
      table's own reference on the new entry and the one the new entry owns on its master.
     */
    method NewConntrack(r: New) returns (err: int)
      requires rcu == 0 && mutex && !ctLock && !expLock && Possible(r.body)
      requires r.found.Some? ==> r.found.value in table
      modifies this
      ensures err <= 0 && Says(err, NewCode(r))
      ensures if err == 0 && Missing(r) then
                r.body.alloc.Some? && Now() == AfterCreate(old(Now()), r.body, multiset{r.body.alloc.value})
              else Now() == old(Now())
    {
      hide CreateCode, ChangeCode, AfterCreate;
      if r.zone < 0 {
        return r.zone;
      }
      if r.orig.Some? && r.orig.value < 0 {
        return r.orig.value;
      }
      if r.reply.Some? && r.reply.value < 0 {
        return r.reply.value;
      }
      var h := None;
      if r.orig.Some? || r.reply.Some? {
        h := r.found;
        FindGet(h);
      }
      if h.None? {
        err := ENOENT;
        if r.create {
          if r.orig.None? || r.reply.None? {
            return EINVAL;
          }
          if !r.sameProto {
            return EINVAL;
          }
          err := CreateAndReport(r.body);
        }
        return;
      }
      err := EEXIST;
      if !r.exclusive {
        err := ChangeConntrack(r.change);
      }
      PutBack(old(use), h.value);
      Put(h.value);
    }

    // -------------------------------------------------------------- creating an expectation

    method ExpectAlloc(e: ConnId)
      requires e !in expLive && expUse[e] == 0
      modifies this
      ensures Now() == old(Now()).(expUse := old(expUse) + multiset{e}, expLive := old(expLive) + {e})
    {
      expUse := expUse + multiset{e};
      expLive := expLive + {e};
    }

    /** nf_ct_expect_put: the last reference frees. */
    method ExpectPut(e: ConnId)
      requires expUse[e] > 0 && e in expLive
      requires expUse[e] == 1 ==> e !in expTable
      modifies this
      ensures Now() == old(Now()).(expUse := old(expUse) - multiset{e},
                                   expLive := if old(expUse)[e] == 1 then old(expLive) - {e} else old(expLive))
    {
      if expUse[e] == 1 {
        expLive := expLive - {e};
      }
      expUse := expUse - multiset{e};
    }

    /** nf_ct_expect_related_report: an inserted expectation has one reference from the table and one from its timer. */
    method Relate(e: ConnId, answer: int) returns (err: int)
      requires e in expLive && e !in expTable && rcu > 0
      modifies this
      ensures err == answer
      ensures Now() == if answer < 0 then old(Now())
              else old(Now()).(expUse := old(expUse) + multiset{e, e}, expTable := old(expTable) + {e})
    {
      err := answer;
      if answer >= 0 {
        expUse := expUse + multiset{e, e};
        expTable := expTable + {e};
      }
    }

    /** ctnetlink_alloc_expect: a new expectation with one reference, or nothing. */
    method AllocExpectation(a: AllocExpect) returns (err: int, exp: Option<ConnId>)
      requires a.alloc.Some? ==> a.alloc.value !in expLive && a.alloc.value !in expTable && expUse[a.alloc.value] == 0
      modifies this
      ensures Says(err, AllocCode(a))
      ensures exp == if err >= 0 then a.alloc else None
      ensures exp.None? ==> err < 0 && Now() == old(Now())
      ensures exp.Some? ==>
                Now() == old(Now()).(expUse := old(expUse) + multiset{exp.value}, expLive := old(expLive) + {exp.value})
    {
      if !a.hasHelp {
        return EOPNOTSUPP, None;
      }
      if !a.classOk {
        return EINVAL, None;
      }
      if a.alloc.None? {
        return ENOMEM, None;
      }
      var e := a.alloc.value;
      ExpectAlloc(e);
      PutBack(old(expUse), e);
      FreeBack(old(expLive), e);
      if a.functionFound == Some(false) {
        ExpectPut(e);
        return EINVAL, None;
      }
      if a.natPart.Some? && a.natPart.value < 0 {
        ExpectPut(e);
        return a.natPart.value, None;
      }
      return 0, Some(e);
    }

    /** The helper of the expectation; `inRcu` says at which of the two labels an error lands. */
    method FindHelper(h: Option<NamedHelper>) returns (err: int, inRcu: bool)
      requires rcu == 1 && !ctLock && !expLock
      modifies this
      ensures Now() == old(Now()).(rcu := if inRcu then 1 else 0)
      ensures err == NamedCode(h) && (err >= 0 ==> inRcu)
    {
      if h.Some? && !h.value.found {
        RcuUnlock();
        var ok := LoadModule(h.value.loads);
        if !ok {
          return EOPNOTSUPP, false;
        }
        RcuLock();
        if h.value.foundThen {
          return EAGAIN, true;
        }
        RcuUnlock();
        return EOPNOTSUPP, false;
      }
      return 0, true;
    }

    /** The expectation itself, made and inserted, inside RCU. */
    method MakeExpectation(x: Expect) returns (err: int)
      requires rcu > 0
      requires var a := x.alloc.alloc; a.Some? ==> a.value !in expLive && a.value !in expTable && expUse[a.value] == 0
      modifies this
      ensures Says(err, Then(AllocCode(x.alloc), x.related))
      ensures err < 0 ==> Now() == old(Now())
      ensures err >= 0 ==> x.alloc.alloc.Some? && Now() == AfterExpect(old(Now()), x.alloc.alloc.value)
    {
      var exp;
      err, exp := AllocExpectation(x.alloc);
      if exp.None? {
        return;
      }
      err := Relate(exp.value, x.related);
      PutBack(old(expUse), exp.value);
      FreeBack(old(expLive), exp.value);
      PutOneOfThree(old(expUse), exp.value);
      ExpectPut(exp.value);
    }

    /**
      ctnetlink_create_expect: the connection's count is as before on every path, and the expectation is either gone
      or inserted, with the table's and the timer's references.
     */
    method CreateExpect(x: Expect) returns (err: int)
      requires rcu == 0 && !ctLock && !expLock
      requires x.master.Some? ==> x.master.value in table
      requires var a := x.alloc.alloc; a.Some? ==> a.value !in expLive && a.value !in expTable && expUse[a.value] == 0
      modifies this
      ensures Says(err, ExpectCode(x))
      ensures err < 0 ==> Now() == old(Now())
      ensures err >= 0 ==> x.alloc.alloc.Some? && Now() == AfterExpect(old(Now()), x.alloc.alloc.value)
    {
      if x.tuple < 0 {
        return x.tuple;
      }
      if x.mask < 0 {
        return x.mask;
      }
      if x.masterTuple < 0 {
        return x.masterTuple;
      }
      FindGet(x.master);
      if x.master.None? {
        return ENOENT;
      }
      RcuLock();
      var inRcu;
      err, inRcu := FindHelper(x.helper);
      if err >= 0 {
        err := MakeExpectation(x);
      }
      if inRcu {
        RcuUnlock();
      }
      PutBack(old(use), x.master.value);
      Put(x.master.value);
    }

    /** ctnetlink_new_expect: the expectation lock is held only to look, or to change what was found. */
    method NewExpectation(r: NewExpect) returns (err: int)
      requires rcu == 0 && !ctLock && !expLock
      requires r.body.master.Some? ==> r.body.master.value in table
      requires var a := r.body.alloc.alloc;
               a.Some? ==> a.value !in expLive && a.value !in expTable && expUse[a.value] == 0
      modifies this
      ensures Says(err, NewExpectCode(r))
      ensures if err >= 0 && !r.present then
                r.body.alloc.alloc.Some? && Now() == AfterExpect(old(Now()), r.body.alloc.alloc.value)
              else Now() == old(Now())
    {
      if !r.complete {
        return EINVAL;
      }
      if r.zone < 0 {
        return r.zone;
      }
      if r.tuple < 0 {
        return r.tuple;
      }
      expLock := true;
      if !r.present {
        expLock := false;
        err := ENOENT;
        if r.create {
          err := CreateExpect(r.body);
        }
        return;
      }
      err := EEXIST;
      if !r.exclusive {
        err := r.change;
      }
      expLock := false;
    }
  }

  // ---------------------------------------------------------------- who owns the references

  /** The inserted entries that own a reference on `c` as their master. */
  ghost function Children(l: Ledger, c: ConnId): set<ConnId> {
    Preimage(l.masters, c)
  }

  function Preimage(m: map<ConnId, ConnId>, c: ConnId): set<ConnId> {
    set x | x in m && m[x] == c
  }

  lemma PreimageAfter(m: map<ConnId, ConnId>, c: ConnId, master: ConnId, x: ConnId)
    requires c !in m
    ensures |Preimage(m[c := master], x)| == |Preimage(m, x)| + (if master == x then 1 else 0)
  {
    var m' := m[c := master];
    var before, after := Preimage(m, x), Preimage(m', x);
    forall y: ConnId
      ensures y in after <==> y in before || (y == c && master == x)
    {
      assert y in m' && m'[y] == x <==> (y in m && m[y] == x) || (y == c && master == x);
    }
    assert c !in before;
    hide Preimage;
    if master == x {
      assert after == before + {c};
    } else {
      assert after == before;
    }
  }

  /** The references on `c`: the table's own, those of the entries whose master it is, and those of everybody else. */
  ghost predicate OwnedAt(l: Ledger, others: multiset<ConnId>, c: ConnId) {
    l.use[c] == (if c in l.table then 1 else 0) + |Children(l, c)| + others[c]
  }

  /** Between two requests every reference has an owner, and only inserted entries own any. */
  ghost predicate Owned(l: Ledger, others: multiset<ConnId>) {
    && (forall c: ConnId :: OwnedAt(l, others, c))
    && (forall x :: x in l.masters ==> x in l.table)
  }

  lemma ChildrenAfter(l: Ledger, r: Create, x: ConnId)
    requires r.alloc.Some? && r.alloc.value !in l.masters
    ensures |Children(AfterCreate(l, r, multiset{r.alloc.value}), x)| ==
            |Children(l, x)| + (if MasterOf(r) == Some(x) then 1 else 0)
  {
    if MasterOf(r).Some? {
      PreimageAfter(l.masters, r.alloc.value, MasterOf(r).value, x);
    }
    hide Preimage;
  }

  lemma UseAfter(l: Ledger, r: Create, x: ConnId)
    requires r.alloc.Some?
    ensures AfterCreate(l, r, multiset{r.alloc.value}).use[x] ==
            l.use[x] + (if MasterOf(r) == Some(x) then 1 else 0) + (if x == r.alloc.value then 1 else 0)
  {
  }

  /** A creation keeps the account: the new references are owned by the table and by the new entry. */
  lemma CreationKeepsOwned(l: Ledger, r: Create, others: multiset<ConnId>)
    requires Owned(l, others) && r.alloc.Some? && r.alloc.value !in l.table
    ensures Owned(AfterCreate(l, r, multiset{r.alloc.value}), others)
  {
    var c := r.alloc.value;
    var l' := AfterCreate(l, r, multiset{c});
    forall x: ConnId
      ensures OwnedAt(l', others, x)
    {
      assert OwnedAt(l, others, x);
      ChildrenAfter(l, r, x);
      UseAfter(l, r, x);
      assert x in l'.table <==> x in l.table || x == c;
      hide Children, AfterCreate, MasterOf;
    }
  }
}
