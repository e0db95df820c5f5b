/** The opcode lookup with its caches (get_opcode_entry and cris_constraint): one table for plain
    instructions and one for each class of prefix. */
module CrisLookup {
  import opened Sectors
  import opened CrisOpcodes

  /** What a prefix instruction looks like to the search; none when it is no instruction itself. */
  function ViewOf(table: seq<Opcode>, prefix: Insn, family: Family): Option<View> {
    if prefix == NO_PREFIX then Some(NoPrefix)
    else match Lookup(table, prefix, NoPrefix, family)
      case None => None
      case Some(k) => Some(Prefix(table[k].matchBits, SignedByte(prefix)))
  }

  /** The entry for `insn` after `prefix`, searched afresh. */
  function Answer(table: seq<Opcode>, insn: Insn, prefix: Insn, family: Family): Option<nat> {
    match ViewOf(table, prefix, family)
    case None => None
    case Some(v) => Lookup(table, insn, v, family)
  }

  /** A search afresh: the best match of the prefix on its own, and then of the instruction after it. */
  lemma AnswerIsBest(table: seq<Opcode>, insn: Insn, prefix: Insn, family: Family) returns (p: Option<nat>)
    ensures IsBest(Levels(table, prefix, NoPrefix, family), |table|, p)
    ensures var r := Answer(table, insn, prefix, family);
            if prefix == 0 then IsBest(Levels(table, insn, NoPrefix, family), |table|, r)
            else if p == None then r == None
            else IsBest(Levels(table, insn, Prefix(table[p.value].matchBits, SignedByte(prefix)), family), |table|, r)
  {
    hide Lookup, Levels, IsBest, SignedByte;
    p := Lookup(table, prefix, NoPrefix, family);
    LookupIsBest(table, prefix, NoPrefix, family, p);
    if prefix == 0 {
      LookupIsBest(table, insn, NoPrefix, family, Answer(table, insn, prefix, family));
    } else if p.Some? {
      LookupIsBest(table, insn, Prefix(table[p.value].matchBits, SignedByte(prefix)), family,
                   Answer(table, insn, prefix, family));
    }
  }

  // ---------------------------------------------------------------- the caches

  /** The place of an instruction in a cache. */
  datatype Slot = Slot(insn: Insn)

  type Cache = map<Slot, nat>

  datatype Caches = Caches(opcTable: Cache, dip: Cache, m1: Cache, m2: Cache, m4: Cache, rest: Cache)
  {
    function Of(kind: Kind): Cache {
      match kind
      case Plain => opcTable
      case Dip => dip
      case PushM1 => m1
      case PushM2 => m2
      case PushM4 => m4
      case Rest => rest
    }

    /** With what a search found for `insn`; nothing found is not kept. */
    function Stored(kind: Kind, insn: Insn, found: Option<nat>): Caches {
      if found == None then this else
      var cache := Of(kind)[Slot(insn) := found.value];
      match kind
      case Plain => this.(opcTable := cache)
      case Dip => this.(dip := cache)
      case PushM1 => this.(m1 := cache)
      case PushM2 => this.(m2 := cache)
      case PushM4 => this.(m4 := cache)
      case Rest => this.(rest := cache)
    }

    ghost predicate InTable(n: nat) {
      forall kind, slot :: slot in Of(kind) ==> Of(kind)[slot] < n
    }
  }

  const NO_ENTRIES := Caches(map[], map[], map[], map[], map[], map[])

  lemma StoredOf(c: Caches, kind: Kind, insn: Insn, found: Option<nat>, k: Kind)
    ensures c.Stored(kind, insn, found).Of(k) ==
            if k == kind && found.Some? then c.Of(k)[Slot(insn) := found.value] else c.Of(k)
  {
  }

  lemma StoredInTable(c: Caches, kind: Kind, insn: Insn, found: Option<nat>, n: nat)
    requires c.InTable(n) && (found.Some? ==> found.value < n)
    ensures c.Stored(kind, insn, found).InTable(n)
  {
    var c' := c.Stored(kind, insn, found);
    forall k, slot | slot in c'.Of(k)
      ensures c'.Of(k)[slot] < n
    {
      StoredOf(c, kind, insn, found, k);
    }
  }

  /** One access to the cache of a class: what it gives, and the caches afterwards. */
  function Access(table: seq<Opcode>, c: Caches, insn: Insn, v: View, family: Family): (r: (Option<nat>, Caches))
    requires c.InTable(|table|)
    ensures r.1.InTable(|table|) && (r.0.Some? ==> r.0.value < |table|)
    ensures r.0.Some? ==> Slot(insn) in r.1.Of(KindOf(v)) && r.1.Of(KindOf(v))[Slot(insn)] == r.0.value
  {
    if Slot(insn) in c.Of(KindOf(v)) then (Some(c.Of(KindOf(v))[Slot(insn)]), c)
    else
      var found := Lookup(table, insn, v, family);
      StoredInTable(c, KindOf(v), insn, found, |table|);
      StoredOf(c, KindOf(v), insn, found, KindOf(v));
      (found, c.Stored(KindOf(v), insn, found))
  }

  /** The cached lookup, whatever the caches hold. A prefix is looked up first; which cache is consulted and
      what the search sees of the prefix depend on the entry found for it. */
  function CachedEntry(table: seq<Opcode>, c: Caches, insn: Insn, prefix: Insn,
                       family: Family): (r: (Option<nat>, Caches))
    requires c.InTable(|table|)
    ensures r.1.InTable(|table|)
  {
    if prefix == NO_PREFIX then Access(table, c, insn, NoPrefix, family) else
    var p := Access(table, c, prefix, NoPrefix, family);
    match p.0
    case None => (None, p.1)
    case Some(k) => Access(table, p.1, insn, Prefix(table[k].matchBits, SignedByte(prefix)), family)
  }

  // ---------------------------------------------------------------- sequences of lookups

  datatype Call = Call(insn: Insn, prefix: Insn, family: Family)
  {
    function Fresh(table: seq<Opcode>): Option<nat> {
      Answer(table, insn, prefix, family)
    }
  }

  /** The caches after the calls. */
  function After(table: seq<Opcode>, calls: seq<Call>): (c: Caches)
    ensures c.InTable(|table|)
  {
    if calls == [] then NO_ENTRIES else
    var call := calls[|calls| - 1];
    CachedEntry(table, After(table, calls[..|calls| - 1]), call.insn, call.prefix, call.family).1
  }

  /** What call `i` of the sequence returns. */
  function Returned(table: seq<Opcode>, calls: seq<Call>, i: nat): Option<nat>
    requires i < |calls|
  {
    CachedEntry(table, After(table, calls[..i]), calls[i].insn, calls[i].prefix, calls[i].family).0
  }

  /** Every call returns what a search would. */
  ghost predicate AllFresh(table: seq<Opcode>, calls: seq<Call>) {
    forall i :: 0 <= i < |calls| ==> Returned(table, calls, i) == calls[i].Fresh(table)
  }

  // ---------------------------------------------------------------- sequences without prefixes

  /** The family of the first of the calls for `insn` that found something: it filled the entry. */
  function Filler(table: seq<Opcode>, calls: seq<Call>, insn: Insn): Option<Family> {
    if calls == [] then None else
    match Filler(table, calls[..|calls| - 1], insn)
    case Some(f) => Some(f)
    case None =>
      var call := calls[|calls| - 1];
      if call.insn == insn && Lookup(table, insn, NoPrefix, call.family).Some? then Some(call.family) else None
  }

  lemma {:induction false} FillerFills(table: seq<Opcode>, calls: seq<Call>, insn: Insn)
    requires forall call :: call in calls ==> call.prefix == NO_PREFIX
    ensures var c := After(table, calls).opcTable;
            match Filler(table, calls, insn)
            case None => Slot(insn) !in c
            case Some(f) => Slot(insn) in c && Some(c[Slot(insn)]) == Lookup(table, insn, NoPrefix, f)
  {
    hide Lookup;
    if calls != [] {
      FillerFills(table, calls[..|calls| - 1], insn);
      var call := calls[|calls| - 1];
      assert call in calls;
    }
  }

  /** Plain lookups all return what a search would if and only if no call for an instruction comes from a
      family whose search differs from that of the family that filled the entry. */
  lemma PlainRunIff(table: seq<Opcode>, calls: seq<Call>)
    requires forall call :: call in calls ==> call.prefix == NO_PREFIX
    ensures AllFresh(table, calls) <==>
            forall j :: 0 <= j < |calls| ==>
              match Filler(table, calls[..j], calls[j].insn)
              case None => true
              case Some(f) =>
                Lookup(table, calls[j].insn, NoPrefix, f) ==
                Lookup(table, calls[j].insn, NoPrefix, calls[j].family)
  {
    hide Lookup;
    forall j | 0 <= j < |calls|
      ensures Returned(table, calls, j) ==
              match Filler(table, calls[..j], calls[j].insn)
              case None => Lookup(table, calls[j].insn, NoPrefix, calls[j].family)
              case Some(f) => Lookup(table, calls[j].insn, NoPrefix, f)
    {
      assert forall call :: call in calls[..j] ==> call in calls;
      assert calls[j] in calls;
      FillerFills(table, calls[..j], calls[j].insn);
    }
    assert forall j :: 0 <= j < |calls| ==>
        calls[j] in calls && calls[j].Fresh(table) == Lookup(table, calls[j].insn, NoPrefix, calls[j].family);
  }

  /** A lookup for one family answers the next one for another, which has no such instruction. */
  lemma StaleAnswer(insn: Insn) returns (table: seq<Opcode>, calls: seq<Call>)
    ensures table == [Opcode("setf", 0, 0, "", V0_10)]
    ensures calls == [Call(insn, NO_PREFIX, FamilyV0V10), Call(insn, NO_PREFIX, FamilyV32)]
    ensures Returned(table, calls, 0) == calls[0].Fresh(table) == Some(0)
    ensures Returned(table, calls, 1) == Some(0) && calls[1].Fresh(table) == None
  {
    table := [Opcode("setf", 0, 0, "", V0_10)];
    calls := [Call(insn, NO_PREFIX, FamilyV0V10), Call(insn, NO_PREFIX, FamilyV32)];
    OnlyOneFamily(table[0], insn);
    hide Lookup;
    assert calls[..0] == [] && calls[..1] == [calls[0]] && [calls[0]][..0] == [];
    FillerFills(table, calls[..0], insn);
    FillerFills(table, calls[..1], insn);
    assert Filler(table, [], insn) == None;
  }

  lemma OnlyOneFamily(op: Opcode, insn: Insn)
    requires op == Opcode("setf", 0, 0, "", V0_10)
    ensures Lookup([op], insn, NoPrefix, FamilyV0V10) == Some(0) && Lookup([op], insn, NoPrefix, FamilyV32) == None
  {
    ZeroBitsFit(op, insn);
    assert Constraint("", insn, NoPrefix, FamilyV0V10) == 0;
    assert Level(op, insn, NoPrefix, FamilyV0V10) >= 0;
    assert Level(op, insn, NoPrefix, FamilyV32) == -1;
    hide Level, Lookup;
    LookupIsBest([op], insn, NoPrefix, FamilyV32, None);
    LookupIsBest([op], insn, NoPrefix, FamilyV0V10, Some(0));
  }

  lemma ZeroBitsFit(op: Opcode, insn: Insn)
    requires op.matchBits == op.loseBits == 0
    ensures BitsFit(op, insn)
  {
  }

  // ---------------------------------------------------------------- sequences with prefixes

  /** Searches of the two families give the same, with any prefix. */
  ghost predicate Agree(table: seq<Opcode>, f: Family, g: Family) {
    forall insn, prefix :: Answer(table, insn, prefix, f) == Answer(table, insn, prefix, g)
  }

  predicate OfKind(table: seq<Opcode>, kind: Kind, prefix: Insn, family: Family) {
    match ViewOf(table, prefix, family)
    case None => false
    case Some(v) => KindOf(v) == kind
  }

  /** What is kept for `insn` in the cache of a class is what a search gives: for every prefix of that class,
      as the family sees it. */
  ghost predicate SlotRight(table: seq<Opcode>, c: Caches, kind: Kind, insn: Insn, prefix: Insn, family: Family) {
    Slot(insn) in c.Of(kind) && OfKind(table, kind, prefix, family) ==>
      Some(c.Of(kind)[Slot(insn)]) == Answer(table, insn, prefix, family)
  }

  ghost predicate Right(table: seq<Opcode>, c: Caches, family: Family) {
    forall kind, insn, prefix :: SlotRight(table, c, kind, insn, prefix, family)
  }

  lemma NothingIsRight(table: seq<Opcode>, family: Family)
    ensures Right(table, NO_ENTRIES, family)
  {
    hide ViewOf, Answer;
  }

  lemma SameClassSameAnswer(table: seq<Opcode>, insn: Insn, v: View, w: View, family: Family)
    requires KindOf(v) == KindOf(w)
    ensures Lookup(table, insn, v, family) == Lookup(table, insn, w, family)
  {
    LookupSeesKind(table, insn, v, w, family);
  }

  lemma AgreeOnViews(table: seq<Opcode>, f: Family, g: Family, prefix: Insn)
    requires Agree(table, f, g)
    ensures ViewOf(table, prefix, f) == ViewOf(table, prefix, g)
  {
    hide Lookup;
    assert Answer(table, prefix, NO_PREFIX, f) == Answer(table, prefix, NO_PREFIX, g);
  }

  /** What an access by one family keeps is right for every family that agrees with it. */
  lemma AccessKeepsRight(table: seq<Opcode>, c: Caches, insn: Insn, prefix: Insn, f: Family, g: Family)
    requires c.InTable(|table|) && Right(table, c, f) && Right(table, c, g) && Agree(table, f, g)
    requires ViewOf(table, prefix, f).Some?
    ensures var r := Access(table, c, insn, ViewOf(table, prefix, f).value, f);
            r.0 == Answer(table, insn, prefix, f) && Right(table, r.1, g)
  {
    hide Lookup, ViewOf, KindOf;
    var v := ViewOf(table, prefix, f).value;
    var kind := KindOf(v);
    var r := Access(table, c, insn, v, f);
    assert SlotRight(table, c, kind, insn, prefix, f);
    forall k, i, p
      ensures SlotRight(table, r.1, k, i, p, g)
    {
      assert SlotRight(table, c, k, i, p, g);
      StoredOf(c, kind, insn, Lookup(table, insn, v, f), k);
      AgreeOnViews(table, f, g, p);
      assert Answer(table, i, p, f) == Answer(table, i, p, g);
      if ViewOf(table, p, f).Some? && KindOf(ViewOf(table, p, f).value) == kind {
        SameClassSameAnswer(table, insn, v, ViewOf(table, p, f).value, f);
      }
    }
  }

  /** With caches that are right for both families a lookup by one returns what a search would, and leaves
      caches that are right for the other. */
  lemma EntryIsRight(table: seq<Opcode>, c: Caches, insn: Insn, prefix: Insn, f: Family, g: Family)
    requires c.InTable(|table|) && Right(table, c, f) && Right(table, c, g) && Agree(table, f, g)
    ensures var r := CachedEntry(table, c, insn, prefix, f);
            r.0 == Answer(table, insn, prefix, f) && Right(table, r.1, g)
  {
    hide Lookup, Access, Right, Agree;
    assert ViewOf(table, NO_PREFIX, f) == Some(NoPrefix);
    if prefix == NO_PREFIX {
      AccessKeepsRight(table, c, insn, NO_PREFIX, f, g);
    } else {
      AgreesWithItself(table, f);
      AccessKeepsRight(table, c, prefix, NO_PREFIX, f, f);
      AccessKeepsRight(table, c, prefix, NO_PREFIX, f, g);
      var p := Access(table, c, prefix, NoPrefix, f);
      if p.0.Some? {
        AccessKeepsRight(table, p.1, insn, prefix, f, g);
      }
    }
  }

  lemma AgreesWithItself(table: seq<Opcode>, f: Family)
    ensures Agree(table, f, f)
  {
  }

  lemma {:induction false} AgreeingCalls(table: seq<Opcode>, calls: seq<Call>, f: Family, g: Family)
    requires Agree(table, f, g) && forall call :: call in calls ==> call.family == f || call.family == g
    ensures Right(table, After(table, calls), f) && Right(table, After(table, calls), g)
  {
    hide CachedEntry, Answer, Right;
    NothingIsRight(table, f);
    NothingIsRight(table, g);
    AgreesWithItself(table, f);
    AgreesWithItself(table, g);
    if calls != [] {
      var init, call := calls[..|calls| - 1], calls[|calls| - 1];
      assert call in calls && forall x :: x in init ==> x in calls;
      AgreeingCalls(table, init, f, g);
      EntryIsRight(table, After(table, init), call.insn, call.prefix, call.family, f);
      EntryIsRight(table, After(table, init), call.insn, call.prefix, call.family, g);
    }
  }

  lemma CallsAreFresh(table: seq<Opcode>, calls: seq<Call>, f: Family, g: Family)
    requires Agree(table, f, g) && forall call :: call in calls ==> call.family == f || call.family == g
    ensures AllFresh(table, calls)
  {
    hide CachedEntry, Answer, Right, Agree;
    forall i | 0 <= i < |calls|
      ensures Returned(table, calls, i) == calls[i].Fresh(table)
    {
      assert calls[i] in calls && forall x :: x in calls[..i] ==> x in calls;
      AgreeingCalls(table, calls[..i], f, g);
      AgreesWithItself(table, calls[i].family);
      EntryIsRight(table, After(table, calls[..i]), calls[i].insn, calls[i].prefix, calls[i].family, calls[i].family);
    }
  }

  /** Whatever is looked up, with whatever prefixes, by one family from the start, the caches do not show. */
  lemma OneFamilyIsFresh(table: seq<Opcode>, calls: seq<Call>, family: Family)
    requires forall call :: call in calls ==> call.family == family
    ensures AllFresh(table, calls)
  {
    AgreesWithItself(table, family);
    CallsAreFresh(table, calls, family, family);
  }

  /** The same lookup by `f` and then by `g`. */
  function Twice(insn: Insn, prefix: Insn, f: Family, g: Family): seq<Call> {
    [Call(insn, prefix, f), Call(insn, prefix, g)]
  }

  /** The second access to an entry gives what the first one kept. */
  lemma AccessAgain(table: seq<Opcode>, c: Caches, insn: Insn, v: View, f: Family, g: Family)
    requires c.InTable(|table|) && Slot(insn) !in c.Of(KindOf(v))
    ensures var r := Access(table, c, insn, v, f);
            && r.0 == Lookup(table, insn, v, f)
            && Access(table, r.1, insn, v, g).0 == if r.0.Some? then r.0 else Lookup(table, insn, v, g)
  {
    hide Lookup, KindOf;
    StoredOf(c, KindOf(v), insn, Lookup(table, insn, v, f), KindOf(v));
  }

  /** An access to another cache leaves an entry as it is. */
  lemma AccessElsewhere(table: seq<Opcode>, c: Caches, insn: Insn, v: View, f: Family, prefix: Insn, g: Family)
    requires c.InTable(|table|) && v.Prefix? && Slot(prefix) in c.Of(Plain)
    ensures var r := Access(table, c, insn, v, f);
            Access(table, r.1, prefix, NoPrefix, g) == (Some(c.Of(Plain)[Slot(prefix)]), r.1)
  {
    hide Lookup;
    StoredOf(c, KindOf(v), insn, Lookup(table, insn, v, f), Plain);
  }

  lemma EntryAgain(table: seq<Opcode>, insn: Insn, prefix: Insn, f: Family, g: Family)
    requires ViewOf(table, prefix, f) == ViewOf(table, prefix, g)
    ensures CachedEntry(table, CachedEntry(table, NO_ENTRIES, insn, prefix, f).1, insn, prefix, g).0 ==
            if Answer(table, insn, prefix, f).Some? then Answer(table, insn, prefix, f)
            else Answer(table, insn, prefix, g)
  {
    hide Lookup, Access, KindOf;
    AccessAgain(table, NO_ENTRIES, if prefix == NO_PREFIX then insn else prefix, NoPrefix, f, g);
    if prefix != NO_PREFIX {
      var p := Access(table, NO_ENTRIES, prefix, NoPrefix, f);
      if p.0.Some? {
        var v := Prefix(table[p.0.value].matchBits, SignedByte(prefix));
        OtherCacheEmpty(table, prefix, insn, v, f);
        AccessAgain(table, p.1, insn, v, f, g);
        AccessElsewhere(table, p.1, insn, v, f, prefix, g);
      }
    }
  }

  lemma OtherCacheEmpty(table: seq<Opcode>, prefix: Insn, insn: Insn, v: View, f: Family)
    requires v.Prefix?
    ensures var p := Access(table, NO_ENTRIES, prefix, NoPrefix, f);
            && Slot(insn) !in p.1.Of(KindOf(v))
            && (p.0.Some? ==> Slot(prefix) in p.1.Of(Plain) && p.1.Of(Plain)[Slot(prefix)] == p.0.value)
  {
    hide Lookup;
    StoredOf(NO_ENTRIES, Plain, prefix, Lookup(table, prefix, NoPrefix, f), KindOf(v));
  }

  lemma TwiceReturns(table: seq<Opcode>, insn: Insn, prefix: Insn, f: Family, g: Family)
    requires ViewOf(table, prefix, f) == ViewOf(table, prefix, g)
    ensures var calls := Twice(insn, prefix, f, g);
            Returned(table, calls, 1) ==
              if Answer(table, insn, prefix, f).Some? then Answer(table, insn, prefix, f)
              else Answer(table, insn, prefix, g)
  {
    hide CachedEntry, Answer;
    var calls := Twice(insn, prefix, f, g);
    assert calls[..1] == [calls[0]] && [calls[0]][..0] == [];
    assert After(table, []) == NO_ENTRIES;
    assert After(table, [calls[0]]) == CachedEntry(table, NO_ENTRIES, insn, prefix, f).1;
    EntryAgain(table, insn, prefix, f, g);
  }

  /** If searches of two families differ there are two lookups of which the second is wrong. */
  lemma DisagreementShows(table: seq<Opcode>, f: Family, g: Family) returns (calls: seq<Call>)
    requires !Agree(table, f, g)
    ensures !AllFresh(table, calls) && forall call :: call in calls ==> call.family == f || call.family == g
  {
    hide Lookup, Returned, After;
    var insn, prefix := Disagreement(table, f, g);
    if Answer(table, insn, prefix, f).Some? {
      calls := Twice(insn, prefix, f, g);
      TwiceReturns(table, insn, prefix, f, g);
    } else {
      calls := Twice(insn, prefix, g, f);
      TwiceReturns(table, insn, prefix, g, f);
    }
    assert Returned(table, calls, 1) != calls[1].Fresh(table);
  }

  /** Where searches differ they do so for an instruction whose prefix both families see alike. */
  lemma Disagreement(table: seq<Opcode>, f: Family, g: Family) returns (insn: Insn, prefix: Insn)
    requires !Agree(table, f, g)
    ensures Answer(table, insn, prefix, f) != Answer(table, insn, prefix, g)
    ensures ViewOf(table, prefix, f) == ViewOf(table, prefix, g)
  {
    hide Lookup;
    insn, prefix :| Answer(table, insn, prefix, f) != Answer(table, insn, prefix, g);
    if ViewOf(table, prefix, f) != ViewOf(table, prefix, g) {
      insn, prefix := prefix, NO_PREFIX;
    }
  }

  /** Two families may share the caches, whatever is looked up in whatever order, if and only if searches of the
      two always agree. */
  lemma FamiliesShareIff(table: seq<Opcode>, f: Family, g: Family)
    ensures Agree(table, f, g) <==>
            forall calls: seq<Call> :: (forall call :: call in calls ==> call.family == f || call.family == g) ==>
                AllFresh(table, calls)
  {
    if Agree(table, f, g) {
      forall calls: seq<Call> | forall call :: call in calls ==> call.family == f || call.family == g
        ensures AllFresh(table, calls)
      {
        CallsAreFresh(table, calls, f, g);
      }
    } else {
      var calls := DisagreementShows(table, f, g);
    }
  }

  // ---------------------------------------------------------------- the lookup in place

  class Disassembler {
    const opcodes: seq<Opcode>
    var opcTable: Cache
    var dipPrefixes: Cache
    var bdapqM1Prefixes: Cache
    var bdapqM2Prefixes: Cache
    var bdapqM4Prefixes: Cache
    var restPrefixes: Cache

    function View(): Caches
      reads this
    {
      Caches(opcTable, dipPrefixes, bdapqM1Prefixes, bdapqM2Prefixes, bdapqM4Prefixes, restPrefixes)
    }

    ghost predicate Valid()
      reads this
    {
      View().InTable(|opcodes|)
    }

    /** Each entry's version is one the search handles. */
    ghost predicate Handles(family: Family)
      reads this
    {
      forall op :: op in opcodes ==> Handled(op.version, family)
    }

    constructor (opcodes: seq<Opcode>)
      ensures this.opcodes == opcodes && Valid() && View() == NO_ENTRIES
    {
      this.opcodes := opcodes;
      opcTable, dipPrefixes, bdapqM1Prefixes, bdapqM2Prefixes := map[], map[], map[], map[];
      bdapqM4Prefixes, restPrefixes := map[], map[];
    }

    method Store(kind: Kind, insn: Insn, found: Option<nat>)
      modifies this
      ensures View() == old(View()).Stored(kind, insn, found)
    {
      if found == None {
        return;
      }
      match kind
      case Plain => opcTable := opcTable[Slot(insn) := found.value];
      case Dip => dipPrefixes := dipPrefixes[Slot(insn) := found.value];
      case PushM1 => bdapqM1Prefixes := bdapqM1Prefixes[Slot(insn) := found.value];
      case PushM2 => bdapqM2Prefixes := bdapqM2Prefixes[Slot(insn) := found.value];
      case PushM4 => bdapqM4Prefixes := bdapqM4Prefixes[Slot(insn) := found.value];
      case Rest => restPrefixes := restPrefixes[Slot(insn) := found.value];
    }

    /** The prefix is none, or its entry is kept. */
    predicate Known(prefix: Insn)
      reads this
    {
      prefix != NO_PREFIX ==> Slot(prefix) in opcTable
    }

    /** What the search sees of the prefix: the entry kept for it, right or not. */
    function Seen(prefix: Insn): View
      requires Valid() && Known(prefix)
      reads this
    {
      if prefix == NO_PREFIX then NoPrefix
      else
        assert Slot(prefix) in View().Of(Plain);
        Prefix(opcodes[opcTable[Slot(prefix)]].matchBits, SignedByte(prefix))
    }

    /** The lookup in place is the cached lookup, whatever the caches hold. */
    method GetOpcodeEntry(insn: Insn, prefix: Insn, family: Family) returns (r: Option<nat>)
      requires Valid() && Handles(family)
      modifies this
      ensures Valid() && (r, View()) == CachedEntry(opcodes, old(View()), insn, prefix, family)
      decreases if prefix == NO_PREFIX then 0 else 1, 3
    {
      hide Lookup, SignedByte, Caches.InTable;
      var kind := Plain;
      if prefix != NO_PREFIX {
        var known: Option<nat>;
        if Slot(prefix) in opcTable {
          known := Some(opcTable[Slot(prefix)]);
          KnownInTable(View(), prefix, |opcodes|);
        } else {
          known := GetOpcodeEntry(prefix, NO_PREFIX, family);
        }
        if known == None {
          return None;
        }
        kind := PrefixClass(opcodes[known.value].matchBits, prefix);
      }
      ghost var c, v := View(), Seen(prefix);
      assert KindOf(v) == kind &&
          CachedEntry(opcodes, old(View()), insn, prefix, family) == Access(opcodes, c, insn, v, family);
      if Slot(insn) in View().Of(kind) {
        return Some(View().Of(kind)[Slot(insn)]);
      }
      r := SearchTable(insn, prefix, family);
      Store(kind, insn, r);
    }

    static method PrefixClass(matchBits: Insn, prefix: Insn) returns (kind: Kind)
      ensures kind == KindOf(Prefix(matchBits, SignedByte(prefix)))
    {
      if matchBits == BDAP_QUICK_OPCODE {
        var offset := SignedByte(prefix);
        match offset
        case -4 => kind := PushM4;
        case -2 => kind := PushM2;
        case -1 => kind := PushM1;
        case _ => kind := Rest;
      } else if matchBits == DIP_OPCODE {
        kind := Dip;
      } else {
        kind := Rest;
      }
    }

    method SearchTable(insn: Insn, prefix: Insn, family: Family) returns (r: Option<nat>)
      requires Valid() && Handles(family) && Known(prefix)
      modifies this
      ensures View() == old(View()) && r == Lookup(opcodes, insn, Seen(prefix), family)
      ensures IsBest(Levels(opcodes, insn, Seen(prefix), family), |opcodes|, r)
      decreases if prefix == NO_PREFIX then 0 else 1, 2
    {
      hide Lookup, Caches.InTable, Handled, Considered, BitsFit, FixedBits, Constraint, Popcount, IsBest;
      ghost var v := Seen(prefix);
      LookupSearches(opcodes, insn, v, family);
      ghost var levels := Levels(opcodes, insn, v, family);
      ghost var c := View();
      var best: Option<nat>, maxLevel := None, -1;
      for i := 0 to |opcodes|
        invariant View() == c && -1 <= maxLevel && (best.Some? ==> best.value < |levels|)
        invariant Search(levels, 0, None, -1) == Search(levels, i, best, maxLevel)
      {
        var op := opcodes[i];
        assert op in opcodes && levels[i] == Level(op, insn, v, family);
        assert Handled(op.version, family);
        if Considered(op.version, family) && BitsFit(op, insn) {
          var level := CrisConstraint(op.args, insn, prefix, family);
          if level >= 0 {
            var bits := NumberOfBits(FixedBits(op));
            level := level + 2 * bits;
            if level > maxLevel {
              best, maxLevel := Some(i), level;
              if level >= FULL_MATCH {
                break;
              }
            }
          }
        }
      }
      r := best;
      LookupIsBest(opcodes, insn, v, family, r);
    }

    method CrisConstraint(args: string, insn: Insn, prefix: Insn, family: Family) returns (r: int)
      requires Valid() && Handles(family) && Known(prefix)
      modifies this
      ensures View() == old(View()) && r == Constraint(args, insn, Seen(prefix), family)
      decreases if prefix == NO_PREFIX then 0 else 1, 1
    {
      hide Letter, Caches.InTable, Handled, Lookup, Levels, Search, SignedByte;
      ghost var v := Seen(prefix);
      ghost var c := View();
      var retval, prefixOk := 0, false;
      for k := 0 to |args|
        invariant View() == c && 0 <= retval
        invariant Constraint(args, insn, v, family) == Score(args, k, insn, v, family, retval, prefixOk)
      {
        var effect := TryLetter(args[k], Next(args, k), insn, prefix, family);
        match effect
        case Refuse => return -1;
        case Pass =>
        case AcceptPrefix => prefixOk := true;
        case SetScore(n) => retval := n;
        case AddScore(m) => retval := retval + m;
      }
      if prefix != NO_PREFIX && !prefixOk {
        return -1;
      }
      r := retval;
    }

    /** One turn of the loop over the argument string. */
    method TryLetter(c: char, next: char, insn: Insn, prefix: Insn, family: Family) returns (e: Effect)
      requires Valid() && Handles(family) && Known(prefix)
      modifies this
      ensures View() == old(View()) && e == Letter(c, next, insn, Seen(prefix), family)
      decreases if prefix == NO_PREFIX then 0 else 1, 0
    {
      hide SpecRegInfo, Field12, PostIncrement, SignedByte, Lookup, Handled, Caches.InTable;
      match c {
      case '!' =>
        if prefix != NO_PREFIX || family != FamilyV0V10 {
          return Refuse;
        }
      case 'U' =>
        return Refuse;
      case 'M' =>
        var tmp := Field12(insn);
        if tmp != 0 && tmp != 4 && tmp != 8 {
          return Refuse;
        }
      case 'm' =>
        if insn & 0x30 == 0x30 {
          return Refuse;
        }
      case 'S' =>
        return if prefix != NO_PREFIX && !PostIncrement(insn) then AcceptPrefix else Refuse;
      case 's' | 'y' | 'Y' =>
        if prefix != NO_PREFIX {
          if PostIncrement(insn) {
            var p := GetOpcodeEntry(prefix, NO_PREFIX, family);
            if opcodes[p.value].matchBits == DIP_OPCODE {
              return Refuse;
            }
          }
          return AcceptPrefix;
        }
      case 'B' =>
        if prefix != NO_PREFIX {
          var p := GetOpcodeEntry(prefix, NO_PREFIX, family);
          if opcodes[p.value].matchBits == BDAP_QUICK_OPCODE {
            var pushsize := SignedByte(prefix);
            if next == 'P' {
              var reg := FindSpecReg(Field12(insn), family);
              if reg.Some? && reg.value.size == Unsigned(0 - pushsize as int) {
                return AcceptPrefix;
              }
            } else if next == 'R' {
              if insn & 0x30 == 0x20 && pushsize == -4 {
                return AcceptPrefix;
              }
            }
          }
        }
        return Refuse;
      case 'D' =>
        return if Field12(insn) == insn & 15 then SetScore(1 + 4) else Refuse;
      case 'P' =>
        var reg := FindSpecReg(Field12(insn), family);
        return if reg.Some? then AddScore(3) else Refuse;
      case _ =>
      }
      return Pass;
    }
  }

  lemma LookupSearches(table: seq<Opcode>, insn: Insn, v: View, family: Family)
    ensures Lookup(table, insn, v, family) == Search(Levels(table, insn, v, family), 0, None, -1)
  {
  }

  lemma KnownInTable(c: Caches, insn: Insn, n: nat)
    requires c.InTable(n) && Slot(insn) in c.opcTable
    ensures c.opcTable[Slot(insn)] < n
  {
    assert Slot(insn) in c.Of(Plain);
  }
}
