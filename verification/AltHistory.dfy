/** What can happen to a lookup table over a run of lookup-table instructions: it only grows
    until it is deactivated, never changes once frozen, and disappears only after the
    cooldown. */
module AltHistory {
  import opened Common
  import opened Bytes
  import opened Accounts
  import opened Validation
  import opened Engine
  import opened Kernel
  import opened Runs
  import opened Alt
  import opened AltProgram

  /** A table's bytes: a header and at most 256 whole addresses. */
  predicate IsTable(data: seq<byte>) {
    && ReadMeta(data).Some?
    && Holding(data, AddressCount(data))
    && AddressCount(data) <= LOOKUP_TABLE_MAX_ADDRESSES
  }

  predicate IsFrozen(data: seq<byte>)
    requires IsTable(data)
  {
    ReadMeta(data).value.authority.None?
  }

  predicate Retired(data: seq<byte>)
    requires IsTable(data)
  {
    IsDeactivated(ReadMeta(data).value)
  }

  /** later is a table that may follow earlier: every address keeps its index, its authority
      is the same or gone, a frozen table is unchanged, and a deactivated one keeps its slot and its addresses. */
  ghost predicate Later(earlier: seq<byte>, later: seq<byte>) {
    && IsTable(earlier) && IsTable(later)
    && AddressCount(earlier) <= AddressCount(later)
    && (IsFrozen(later) || ReadMeta(later).value.authority == ReadMeta(earlier).value.authority)
    && (forall i: nat :: i < AddressCount(earlier) ==> ReadAddress(later, i) == ReadAddress(earlier, i))
    && (IsFrozen(earlier) ==> later == earlier)
    && (Retired(earlier) ==>
          && ReadMeta(later).value.deactivationSlot == ReadMeta(earlier).value.deactivationSlot
          && AddressCount(later) == AddressCount(earlier))
  }

  lemma LaterTrans(a: seq<byte>, b: seq<byte>, c: seq<byte>)
    requires Later(a, b) && Later(b, c)
    ensures Later(a, c)
  {
  }

  /** The table may be closed at this slot: not frozen, and deactivated more than 513 slots
      ago. */
  ghost predicate MayClose(data: seq<byte>, slot: u64) {
    && IsTable(data) && !IsFrozen(data) && Retired(data)
    && slot - ReadMeta(data).value.deactivationSlot > DEACTIVATION_COOLDOWN_SLOTS
  }

  // --- one step -------------------------------------------------------------------------------

  /** One account before and after a step: a table stays a later table of the same owner, or is
      closed. */
  ghost predicate CopyStep(before: Account, after: Account, slot: u64) {
    IsTable(before.data) ==>
      || (Later(before.data, after.data) && after.owner == before.owner)
      || (after.data == [] && MayClose(before.data, slot))
  }

  ghost predicate TablesProgress(w: seq<Account>, post: seq<Account>, slot: u64) {
    SameAddresses(w, post) && forall j :: 0 <= j < |w| ==> CopyStep(w[j], post[j], slot)
  }

  lemma HeaderRewrite(data: seq<byte>, m: TableMeta)
    requires IsTable(data)
    requires var old_ := ReadMeta(data).value;
      && old_.authority.Some? && (m.authority.None? || m.authority == old_.authority)
      && (Retired(data) ==> m.deactivationSlot == old_.deactivationSlot)
    ensures Later(data, WrittenMeta(data, m)) && ReadMeta(WrittenMeta(data, m)) == Some(m)
  {
    var out := WrittenMeta(data, m);
    ReadWrittenMeta(data, m);
    forall i: nat | i < AddressCount(data) ensures ReadAddress(out, i) == ReadAddress(data, i) {
      SameTailReads(data, out, i);
    }
  }

  lemma SameTailReads(a: seq<byte>, b: seq<byte>, i: nat)
    requires LOOKUP_TABLE_META_SIZE <= |a| == |b|
    requires a[LOOKUP_TABLE_META_SIZE..] == b[LOOKUP_TABLE_META_SIZE..]
    ensures ReadAddress(a, i) == ReadAddress(b, i)
  {
    var off := LOOKUP_TABLE_META_SIZE + i * 32;
    if off + 32 <= |a| {
      var m := LOOKUP_TABLE_META_SIZE;
      forall j | off <= j < off + 32 ensures a[j] == b[j] {
        assert a[m..][j - m] == b[m..][j - m];
      }
      assert a[off..off + 32] == b[off..off + 32];
    }
  }

  lemma HeaderKeepsReads(data: seq<byte>, m: TableMeta, i: nat, r: Option<Pubkey>)
    requires LOOKUP_TABLE_META_SIZE <= |data| && ReadAddress(data, i) == r
    ensures ReadAddress(WrittenMeta(data, m), i) == r
  {
    ReadWrittenMeta(data, m);
    SameTailReads(data, WrittenMeta(data, m), i);
  }

  /** out is data with the keys packed behind its addresses. */
  ghost predicate Appends(data: seq<byte>, out: seq<byte>, keys: seq<Pubkey>) {
    && Later(data, out) && AddressCount(out) == AddressCount(data) + |keys|
    && forall i :: 0 <= i < |keys| ==> ReadAddress(out, AddressCount(data) + i) == Some(keys[i])
  }

  lemma GrownIsLater(data: seq<byte>, packed: seq<byte>, n: nat, m: TableMeta)
    requires IsTable(data) && !IsFrozen(data) && !Retired(data) && |packed| == 32 * n
    requires m.authority == ReadMeta(data).value.authority
    requires AddressCount(data) + n <= LOOKUP_TABLE_MAX_ADDRESSES
    ensures var out := WrittenMeta(data + packed, m);
      Later(data, out) && ReadMeta(out) == Some(m) && AddressCount(out) == AddressCount(data) + n
  {
    var out, count := WrittenMeta(data + packed, m), AddressCount(data);
    ReadWrittenMeta(data + packed, m);
    CountOf(out, count + n);
    forall i: nat | i < count ensures ReadAddress(out, i) == ReadAddress(data, i) {
      AppendedKeeps(data, count, packed, i);
      HeaderKeepsReads(data + packed, m, i, ReadAddress(data, i));
    }
  }

  lemma GrownAppends(data: seq<byte>, packed: seq<byte>, keys: seq<Pubkey>, m: TableMeta)
    requires IsTable(data) && !IsFrozen(data) && !Retired(data) && Packs(packed, keys)
    requires m.authority == ReadMeta(data).value.authority
    requires AddressCount(data) + |keys| <= LOOKUP_TABLE_MAX_ADDRESSES
    ensures Appends(data, WrittenMeta(data + packed, m), keys) && ReadMeta(WrittenMeta(data + packed, m)) == Some(m)
  {
    var out, count := WrittenMeta(data + packed, m), AddressCount(data);
    GrownIsLater(data, packed, |keys|, m);
    forall i | 0 <= i < |keys| ensures ReadAddress(out, count + i) == Some(keys[i]) {
      AppendedAdds(data, count, packed, i, keys[i]);
      HeaderKeepsReads(data + packed, m, count + i, Some(keys[i]));
    }
  }

  /** What a successful Extend writes. */
  lemma ExtendWrites(ctx: Ctx, body: seq<byte>, w: seq<Account>) returns (m: TableMeta)
    requires ExtendTable(ctx, body, w).Ok? && IsTable(w[0].data)
    ensures |body| >= 8 && 8 + U64At(body, 0) * 32 <= |body|
    ensures var keys := NewAddresses(body, U64At(body, 0));
      && !IsFrozen(w[0].data) && !Retired(w[0].data) && AddressCount(w[0].data) + |keys| <= LOOKUP_TABLE_MAX_ADDRESSES
      && ExtendTable(ctx, body, w).value[0].data == WrittenMeta(w[0].data + PackedKeys(keys), m)
    ensures var before := AddressCount(w[0].data);
      m == ReadMeta(w[0].data).value.(
        lastExtendedSlot := ctx.sysvars.clock.slot, startIndex := if before < 255 then before else 255)
  {
    var before := AddressCount(w[0].data);
    m := ReadMeta(w[0].data).value.(
      lastExtendedSlot := ctx.sysvars.clock.slot, startIndex := if before < 255 then before else 255);
  }

  /** A successful Extend puts exactly the addresses of the instruction behind the old ones, and
      records the slot and where they start. */
  lemma ExtendAppends(ctx: Ctx, body: seq<byte>, w: seq<Account>)
    requires ExtendTable(ctx, body, w).Ok? && IsTable(w[0].data)
    ensures |body| >= 8 && 8 + U64At(body, 0) * 32 <= |body|
    ensures var out := ExtendTable(ctx, body, w).value[0].data;
      && Appends(w[0].data, out, NewAddresses(body, U64At(body, 0)))
      && ReadMeta(out).value.lastExtendedSlot == ctx.sysvars.clock.slot
      && ReadMeta(out).value.startIndex <= AddressCount(w[0].data) <= 256
      && (AddressCount(w[0].data) <= 255 ==> ReadMeta(out).value.startIndex == AddressCount(w[0].data))
  {
    var m := ExtendWrites(ctx, body, w);
    var keys := NewAddresses(body, U64At(body, 0));
    PackedKeysPack(keys);
    GrownAppends(w[0].data, PackedKeys(keys), keys, m);
  }

  /** A created table starts empty, active, and changeable by the authority that signed. */
  lemma CreationStartsTable(ctx: Ctx, body: seq<byte>, w: seq<Account>)
    requires CreateTable(ctx, body, w).Ok?
    ensures var table := CreateTable(ctx, body, w).value[0].data;
      && IsTable(table) && AddressCount(table) == 0
      && ReadMeta(table) == Some(NewMeta(w[1].address)) && !Retired(table)
  {
    CreateWrites(ctx, body, w);
    NewTableIsTable(w[1].address);
  }

  lemma CreateWrites(ctx: Ctx, body: seq<byte>, w: seq<Account>)
    requires CreateTable(ctx, body, w).Ok?
    ensures |w| >= 4 && w[2].lamports >= INITIAL_LAMPORTS && w[0].lamports == 0
    ensures CreateTable(ctx, body, w).value == Created(ctx.programId, w)
  {
  }

  lemma NewTableIsTable(authority: Pubkey)
    ensures var table := NewTable(authority);
      IsTable(table) && AddressCount(table) == 0 && ReadMeta(table) == Some(NewMeta(authority))
  {
    ReadWrittenMeta(Zeroes(LOOKUP_TABLE_META_SIZE), NewMeta(authority));
  }

  /** A table once frozen refuses every further change; a deactivated one refuses to be
      extended or deactivated again. */
  lemma Refusals(ctx: Ctx, body: seq<byte>, w: seq<Account>)
    requires |w| > 0 && IsTable(w[0].data)
    ensures CreateTable(ctx, body, w).Err?
    ensures IsFrozen(w[0].data) ==>
      && FreezeTable(ctx, w).Err? && ExtendTable(ctx, body, w).Err?
      && DeactivateTable(ctx, w).Err? && CloseTable(ctx, w).Err?
    ensures Retired(w[0].data) ==> ExtendTable(ctx, body, w).Err? && DeactivateTable(ctx, w).Err?
  {
  }

  /** Deactivation takes effect exactly when the clock is below the slot that marks an active
      table. */
  lemma DeactivationSticks(ctx: Ctx, w: seq<Account>)
    requires DeactivateTable(ctx, w).Ok? && IsTable(w[0].data)
    ensures var out := DeactivateTable(ctx, w).value[0].data;
      && Later(w[0].data, out)
      && (Retired(out) <==> ctx.sysvars.clock.slot != ACTIVE_DEACTIVATION_SLOT)
  {
    var meta := ReadMeta(w[0].data).value;
    HeaderRewrite(w[0].data, meta.(deactivationSlot := ctx.sysvars.clock.slot));
  }

  lemma FreezeIsLater(ctx: Ctx, w: seq<Account>)
    requires FreezeTable(ctx, w).Ok? && IsTable(w[0].data)
    ensures var out := FreezeTable(ctx, w).value[0].data; Later(w[0].data, out) && IsFrozen(out)
  {
    HeaderRewrite(w[0].data, ReadMeta(w[0].data).value.(authority := None));
  }

  lemma CloseEnds(ctx: Ctx, w: seq<Account>)
    requires CloseTable(ctx, w).Ok? && IsTable(w[0].data)
    ensures CloseTable(ctx, w).value[0].data == [] && MayClose(w[0].data, ctx.sysvars.clock.slot)
  {
  }

  lemma FirstCopySteps(ctx: Ctx, data: seq<byte>, w: seq<Account>)
    requires Invoke(ctx, data, w).Ok? && |w| > 0 && |Invoke(ctx, data, w).value| > 0
    ensures CopyStep(w[0], Invoke(ctx, data, w).value[0], ctx.sysvars.clock.slot)
  {
    var tag, body := U32At(data, 0), data[4..];
    if IsTable(w[0].data) {
      if tag == 0 { Refusals(ctx, body, w); }
      else if tag == 1 { FreezeIsLater(ctx, w); }
      else if tag == 2 { ExtendAppends(ctx, body, w); }
      else if tag == 3 { DeactivationSticks(ctx, w); }
      else { CloseEnds(ctx, w); }
    }
  }

  /** Every handler leaves every copy of its slice a later table, or closes the first. */
  lemma InvokeProgresses(ctx: Ctx, data: seq<byte>, w: seq<Account>)
    requires Invoke(ctx, data, w).Ok?
    ensures TablesProgress(w, Invoke(ctx, data, w).value, ctx.sysvars.clock.slot)
  {
    OtherCopiesKeepData(ctx, data, w);
    FirstCopySteps(ctx, data, w);
  }

  ghost predicate ChangesFirstData(w: seq<Account>, post: seq<Account>) {
    && |w| > 0 && SameAddresses(w, post)
    && forall j :: 0 < j < |w| ==> post[j].data == w[j].data && post[j].owner == w[j].owner
  }

  lemma CreateChangesFirst(ctx: Ctx, body: seq<byte>, w: seq<Account>)
    requires CreateTable(ctx, body, w).Ok?
    ensures ChangesFirstData(w, CreateTable(ctx, body, w).value)
  {
    CreateWrites(ctx, body, w);
  }

  lemma CloseChangesFirst(ctx: Ctx, w: seq<Account>)
    requires CloseTable(ctx, w).Ok?
    ensures ChangesFirstData(w, CloseTable(ctx, w).value)
  {
  }

  lemma OtherCopiesKeepData(ctx: Ctx, data: seq<byte>, w: seq<Account>)
    requires Invoke(ctx, data, w).Ok?
    ensures ChangesFirstData(w, Invoke(ctx, data, w).value)
  {
    var tag, body := U32At(data, 0), data[4..];
    if tag == 0 {
      CreateChangesFirst(ctx, body, w);
    } else if tag == 4 {
      CloseChangesFirst(ctx, w);
    } else {
      var post := Invoke(ctx, data, w).value;
      assert |w| > 0 && post == w[0 := post[0]] && post[0].address == w[0].address;
    }
  }

  lemma AltProgramKeepsAddresses()
    ensures KeepsAddresses(AltProgramSimulator())
  {
    forall ctx: Ctx, data: seq<byte>, w: seq<Account>, cells: Cells
      ensures SameAddresses(w, AltProgramSimulator().invoke(ctx, data, w, cells).accounts)
    {
      if Invoke(ctx, data, w).Ok? { OtherCopiesKeepData(ctx, data, w); }
    }
  }

  // --- over runs ------------------------------------------------------------------------------

  ghost predicate AltHarness(s: State, altId: Pubkey) {
    Sound(s) && altId in s.env.registry && s.env.registry[altId] == AltProgramSimulator()
  }

  lemma AltStepProgresses(s: State, ix: Instruction, i: nat, altId: Pubkey)
    requires AltHarness(s, altId) && ix.programId == altId && i < |s.list|
    requires Succeeds(s.env, s.cells, ix, s.list)
    ensures SameAddresses(s.list, After(s, Exec(ix)).list)
    ensures CopyStep(s.list[i], After(s, Exec(ix)).list[i], s.env.sysvars.clock.slot)
  {
    var j := CopySource(s.env, s.cells, ix, s.list, i);
    SuccessfulDispatch(s.env, s.cells, ix, s.list);
    var ctx := Ctx(ix.programId, ix.metas, s.env.sysvars, Limit(s.env, s.cells), ALT_INSTRUCTION_CU);
    var w := Resolved(ix.metas, s.list);
    assert Invoke(ctx, ix.data, w) == Ok(InvocationOf(s.env, s.cells, ix, s.list).accounts);
    InvokeProgresses(ctx, ix.data, w);
  }

  lemma EventProgresses(s: State, e: Event, i: nat, altId: Pubkey)
    requires AltHarness(s, altId) && i < |s.list| && Shielded(s, altId, i, e)
    ensures AltHarness(After(s, e), altId) && SameAddresses(s.list, After(s, e).list)
    ensures CopyStep(s.list[i], After(s, e).list[i], s.env.sysvars.clock.slot)
    ensures IsTable(s.list[i].data) && !Later(s.list[i].data, After(s, e).list[i].data) ==> e.Exec?
  {
    AfterSound(s, e);
    if e.Exec? {
      if e.ix.programId != altId {
        StrictStepRespectsOwners(s.env, s.cells, e.ix, s.list, i);
      } else if Succeeds(s.env, s.cells, e.ix, s.list) {
        AltStepProgresses(s, e.ix, i, altId);
      } else {
        DispatchShape(s.env, s.cells, e.ix, s.list);
      }
    }
  }

  /** Event number k of the run closed the table, which was then a later table and past its
      cooldown. */
  ghost predicate ClosedAt(s: State, events: seq<Event>, i: nat, k: nat)
    requires k < |events|
  {
    var at := Run(s, events[..k]);
    && i < |s.list| && i < |at.list| && Later(s.list[i].data, at.list[i].data)
    && events[k].Exec? && MayClose(at.list[i].data, at.env.sysvars.clock.slot)
    && i < |After(at, events[k]).list| && After(at, events[k]).list[i].data == []
  }

  lemma ClosedLater(s: State, events: seq<Event>, i: nat, k: nat)
    requires events != [] && k < |events| - 1 && i < |s.list| && i < |After(s, events[0]).list|
    requires Later(s.list[i].data, After(s, events[0]).list[i].data)
    requires ClosedAt(After(s, events[0]), events[1..], i, k)
    ensures ClosedAt(s, events, i, k + 1)
  {
    assert events[..k + 1][1..] == events[1..][..k];
    var at := Run(s, events[..k + 1]);
    assert at == Run(After(s, events[0]), events[1..][..k]);
    LaterTrans(s.list[i].data, After(s, events[0]).list[i].data, at.list[i].data);
  }

  /** The runs these theorems are about: lookup-table instructions alone, under either policy, or
      any programs under Strict when the table is owned by the lookup-table program. */
  ghost predicate TableRun(s: State, events: seq<Event>, i: nat, altId: Pubkey) {
    OnlyRuns(events, altId) || (s.env.policy == Strict && i < |s.list| && s.list[i].owner == altId)
  }

  /** Over any such run and any moves of the clock, a table either ends as a later table or was
      closed by an instruction of the run: unfrozen, deactivated, and more than 513 slots after
      its deactivation. */
  lemma {:induction false} TableHistory(s: State, events: seq<Event>, i: nat, altId: Pubkey)
    requires AltHarness(s, altId) && TableRun(s, events, i, altId) && i < |s.list| && IsTable(s.list[i].data)
    ensures SameAddresses(s.list, Run(s, events).list)
    ensures Later(s.list[i].data, Run(s, events).list[i].data)
      || exists k :: 0 <= k < |events| && ClosedAt(s, events, i, k)
    decreases |events|
  {
    if events != [] {
      var next, rest := After(s, events[0]), events[1..];
      assert events[0] in events && forall e :: e in rest ==> e in events;
      EventProgresses(s, events[0], i, altId);
      RunSound(next, rest);
      if Later(s.list[i].data, next.list[i].data) {
        TableHistory(next, rest, i, altId);
        if Later(next.list[i].data, Run(next, rest).list[i].data) {
          LaterTrans(s.list[i].data, next.list[i].data, Run(next, rest).list[i].data);
        } else {
          var k :| 0 <= k < |rest| && ClosedAt(next, rest, i, k);
          ClosedLater(s, events, i, k);
        }
      } else {
        assert events[..0] == [];
        assert ClosedAt(s, events, i, 0);
      }
    }
  }

  predicate EmptyOrTable(data: seq<byte>) {
    data == [] || IsTable(data)
  }

  /** Only CreateTable writes to an empty copy. */
  lemma CopiesStayTables(ctx: Ctx, data: seq<byte>, w: seq<Account>, j: nat)
    requires Invoke(ctx, data, w).Ok? && j < |w| && EmptyOrTable(w[j].data)
    ensures |Invoke(ctx, data, w).value| == |w| && EmptyOrTable(Invoke(ctx, data, w).value[j].data)
  {
    OtherCopiesKeepData(ctx, data, w);
    if j == 0 {
      FirstCopySteps(ctx, data, w);
      if U32At(data, 0) == 0 { CreationStartsTable(ctx, data[4..], w); }
    }
  }

  lemma StepStaysTable(s: State, ix: Instruction, i: nat, altId: Pubkey)
    requires AltHarness(s, altId) && ix.programId == altId && i < |s.list| && Succeeds(s.env, s.cells, ix, s.list)
    requires EmptyOrTable(s.list[i].data)
    ensures SameAddresses(s.list, After(s, Exec(ix)).list) && EmptyOrTable(After(s, Exec(ix)).list[i].data)
  {
    var j := CopySource(s.env, s.cells, ix, s.list, i);
    SuccessfulDispatch(s.env, s.cells, ix, s.list);
    var ctx := Ctx(ix.programId, ix.metas, s.env.sysvars, Limit(s.env, s.cells), ALT_INSTRUCTION_CU);
    var w := Resolved(ix.metas, s.list);
    assert Invoke(ctx, ix.data, w) == Ok(InvocationOf(s.env, s.cells, ix, s.list).accounts);
    if j >= 0 { CopiesStayTables(ctx, ix.data, w, j); }
  }

  lemma EventStaysTable(s: State, e: Event, i: nat, altId: Pubkey)
    requires AltHarness(s, altId) && i < |s.list| && Shielded(s, altId, i, e) && altId != SYSTEM_ID
    requires EmptyOrTable(s.list[i].data)
    ensures AltHarness(After(s, e), altId) && SameAddresses(s.list, After(s, e).list)
    ensures EmptyOrTable(After(s, e).list[i].data)
  {
    AfterSound(s, e);
    if e.Exec? {
      if e.ix.programId != altId {
        StrictStepRespectsOwners(s.env, s.cells, e.ix, s.list, i);
      } else if Succeeds(s.env, s.cells, e.ix, s.list) {
        StepStaysTable(s, e.ix, i, altId);
      } else {
        DispatchShape(s.env, s.cells, e.ix, s.list);
      }
    }
  }

  /** Over any run of lookup-table instructions, and of any programs under Strict while the
      lookup-table program owns it, an account that starts empty or as a table is empty or a table
      in every later state, re-creation after a close included. */
  lemma {:induction false} TableOrEmpty(s: State, events: seq<Event>, i: nat, altId: Pubkey)
    requires AltHarness(s, altId) && i < |s.list| && ShieldedRun(s, altId, i, events) && altId != SYSTEM_ID
    requires EmptyOrTable(s.list[i].data)
    ensures SameAddresses(s.list, Run(s, events).list) && EmptyOrTable(Run(s, events).list[i].data)
    decreases |events|
  {
    if events != [] {
      EventStaysTable(s, events[0], i, altId);
      TableOrEmpty(After(s, events[0]), events[1..], i, altId);
    }
  }

  // --- resolution -----------------------------------------------------------------------------

  lemma {:induction false} ReadAllStable(earlier: seq<byte>, later: seq<byte>, indexes: seq<byte>)
    requires Later(earlier, later) && ReadAll(earlier, indexes).Some?
    ensures ReadAll(later, indexes) == ReadAll(earlier, indexes)
  {
    if indexes != [] {
      var n := |indexes| - 1;
      ReadAllStable(earlier, later, indexes[..n]);
      assert indexes[n] < AddressCount(earlier);
    }
  }

  /** A lookup that resolves keeps its answer for as long as the table exists. */
  lemma LookupsStable(earlier: seq<byte>, later: seq<byte>, writable: seq<byte>, readonly: seq<byte>)
    requires Later(earlier, later) && Lookups(earlier, writable, readonly).Ok?
    ensures Lookups(later, writable, readonly) == Lookups(earlier, writable, readonly)
  {
    ReadAllStable(earlier, later, writable);
    ReadAllStable(earlier, later, readonly);
  }

  /** `resolve_address_table_lookup`: the table must be in the list and not cooled down. */
  function Resolve(list: seq<Account>, table: Pubkey, slot: u64, writable: seq<byte>,
                   readonly: seq<byte>): Result<Resolution> {
    var account := Lookup(list, table);
    if account.None? then Err(UnknownAccount)
    else
      var meta := ReadMeta(account.value.data);
      if meta.None? || IsCloseable(meta.value, slot) then Err(BuiltinError)
      else Lookups(account.value.data, writable, readonly)
  }

  /** The harness resolves a lookup exactly when the table is listed, holds a table header, is
      active or deactivated for at most 513 slots, and has an address at every index. */
  lemma ResolveIff(list: seq<Account>, table: Pubkey, slot: u64, writable: seq<byte>, readonly: seq<byte>, i: nat)
    requires Distinct(list) && i < |list| && list[i].address == table
    ensures var r, data := Resolve(list, table, slot, writable, readonly), list[i].data;
      && (r.Ok? <==>
            && |data| >= 56 && U32At(data, 0) == 1
            && (U64At(data, 4) == 0xFFFF_FFFF_FFFF_FFFF || slot <= U64At(data, 4) + 513)
            && AllPresent(data, writable) && AllPresent(data, readonly))
      && (r.Ok? ==> KeysAt(data, writable, r.value.writable) && KeysAt(data, readonly, r.value.readonly))
      && (r.Err? ==> r.error == BuiltinError)
  {
    LookupAt(list, i);
    LookupsIff(list[i].data, writable, readonly);
  }

  lemma UnlistedTable(list: seq<Account>, table: Pubkey, slot: u64, writable: seq<byte>, readonly: seq<byte>)
    requires forall a :: a in list ==> a.address != table
    ensures Resolve(list, table, slot, writable, readonly) == Err(UnknownAccount)
  {
  }

  /** Over a whole run, what a table resolved to before is what it resolves to after, unless it
      has been closed or has cooled down. */
  lemma ResolutionSurvives(s: State, events: seq<Event>, i: nat, altId: Pubkey, writable: seq<byte>,
                           readonly: seq<byte>)
    requires AltHarness(s, altId) && TableRun(s, events, i, altId) && i < |s.list| && IsTable(s.list[i].data)
    requires Resolve(s.list, s.list[i].address, s.env.sysvars.clock.slot, writable, readonly).Ok?
    requires forall k :: 0 <= k < |events| ==> !ClosedAt(s, events, i, k)
    ensures var end, table := Run(s, events), s.list[i].address;
      && i < |end.list| && ReadMeta(end.list[i].data).Some?
      && (!IsCloseable(ReadMeta(end.list[i].data).value, end.env.sysvars.clock.slot) ==>
            Resolve(end.list, table, end.env.sysvars.clock.slot, writable, readonly)
              == Resolve(s.list, table, s.env.sysvars.clock.slot, writable, readonly))
  {
    TableHistory(s, events, i, altId);
    LookupAt(s.list, i);
    var end := Run(s, events);
    LookupSameAddresses(s.list, end.list, s.list[i].address);
    LookupsStable(s.list[i].data, end.list[i].data, writable, readonly);
  }
}
