/** Compaction of the ledger does not change what the binding index answers. */
module BindingCompaction {
  import opened Options
  import opened BindingIndex

  ghost predicate Originals(rows: seq<LedgerRow>) {
    forall row :: row in rows ==> row.Original?
  }

  ghost predicate Usable(fields: Binding) {
    UsableCap(fields, GroupLimit) && UsableCap(fields, RootLimit)
  }

  ghost predicate UsableRows(rows: seq<LedgerRow>) {
    forall row :: row in rows && !row.Header? ==> Usable(row.fields)
  }

  /** Every binding belongs to its member, carries a cap, and its caps are null or finite. */
  ghost predicate WellFormed(axis: Axis, index: map<string, Binding>) {
    forall key :: key in index ==>
      key != "" && axis.KeyOf(index[key]) == key && HasCap(index[key]) && Usable(index[key])
  }

  lemma BlockKeepsWellFormed(axis: Axis, state: AxisState, carried: bool, fields: Binding, carriage: Carriage)
    requires WellFormed(axis, state.index) && Usable(fields)
    ensures WellFormed(axis, BlockOnAxis(axis, state, carried, fields, carriage).index)
  {
    var bound := fields[GroupSource := LEGACY_LIVE];
    assert axis.KeyOf(bound) == axis.KeyOf(fields);
    assert Usable(bound);
  }

  lemma {:induction false} FoldIsWellFormed(state: State, rows: seq<LedgerRow>)
    requires WellFormed(RootAxis, state.roots.index) && WellFormed(GroupAxis, state.groups.index)
    requires UsableRows(rows)
    ensures var after := Folded(state, rows);
      WellFormed(RootAxis, after.roots.index) && WellFormed(GroupAxis, after.groups.index)
  {
    if rows != [] {
      var earlier, row := rows[..|rows| - 1], rows[|rows| - 1];
      FoldIsWellFormed(state, earlier);
      var before := Folded(state, earlier);
      if row.Block? {
        BlockKeepsWellFormed(RootAxis, before.roots, before.carried, row.fields, row.rootCarriage);
        BlockKeepsWellFormed(GroupAxis, before.groups, before.carried, row.fields, row.groupCarriage);
      }
    }
  }

  // ---- the block a compaction writes ----

  function CarriageOf(axis: Axis, row: LedgerRow): Carriage
    requires row.Block?
  {
    if axis.RootAxis? then row.rootCarriage else row.groupCarriage
  }

  /** What a carried block says of one member: its source binding verbatim, or that it has none. */
  function SourceCarriage(index: map<string, Binding>, key: string): Carriage {
    if key in index then Carried(index[key]) else NoOriginal
  }

  function AxisOf(state: State, axis: Axis): AxisState {
    if axis.RootAxis? then state.roots else state.groups
  }

  ghost predicate TellsSource(axis: Axis, row: LedgerRow, index: map<string, Binding>) {
    row.Block? &&
    (axis.KeyOf(row.fields) != "" ==> CarriageOf(axis, row) == SourceCarriage(index, axis.KeyOf(row.fields)))
  }

  /** A block that carries `source` on one axis: every row says what the source answered for
      its member, and no bound member is missing. */
  ghost predicate CarriesAxis(axis: Axis, block: seq<LedgerRow>, index: map<string, Binding>) {
    && (forall row :: row in block ==> TellsSource(axis, row, index))
    && (forall key :: key in index ==> exists row :: row in block && row.Block? && axis.KeyOf(row.fields) == key)
  }

  ghost predicate Carries(block: seq<LedgerRow>, source: State) {
    CarriesAxis(RootAxis, block, source.roots.index) && CarriesAxis(GroupAxis, block, source.groups.index)
  }

  /** Every binding belongs to its member and holds a cap, of whatever value. */
  ghost predicate Owned(axis: Axis, index: map<string, Binding>) {
    forall key :: key in index ==> key != "" && axis.KeyOf(index[key]) == key && HasCap(index[key])
  }

  lemma {:induction false} FoldIsOwned(rows: seq<LedgerRow>)
    ensures Owned(RootAxis, Folded(EMPTY, rows).roots.index) && Owned(GroupAxis, Folded(EMPTY, rows).groups.index)
  {
    if rows != [] {
      var row := rows[|rows| - 1];
      FoldIsOwned(rows[..|rows| - 1]);
      if row.Block? {
        var before := Folded(EMPTY, rows[..|rows| - 1]);
        BlockKeepsOwned(RootAxis, before.roots, before.carried, row.fields, row.rootCarriage);
        BlockKeepsOwned(GroupAxis, before.groups, before.carried, row.fields, row.groupCarriage);
      }
    }
  }

  lemma BlockKeepsOwned(axis: Axis, state: AxisState, carried: bool, fields: Binding, carriage: Carriage)
    requires Owned(axis, state.index)
    ensures Owned(axis, BlockOnAxis(axis, state, carried, fields, carriage).index)
  {
    assert axis.KeyOf(fields[GroupSource := LEGACY_LIVE]) == axis.KeyOf(fields);
  }

  ghost predicate Names(axis: Axis, rows: seq<LedgerRow>, key: string) {
    exists row :: row in rows && row.Block? && axis.KeyOf(row.fields) == key
  }

  /** What the first capped row of a member binds it to when nothing usable was carried. */
  function FirstVote(axis: Axis, rows: seq<LedgerRow>, key: string): Option<Binding> {
    if rows == [] then None
    else
      var earlier, row := FirstVote(axis, rows[..|rows| - 1], key), rows[|rows| - 1];
      if earlier.Some? then earlier
      else if row.Block? && axis.KeyOf(row.fields) == key && BlockLiteral(axis, row.fields).Some? then
        Some(row.fields[GroupSource := LEGACY_LIVE])
      else None
  }

  /** A vote was taken: one literal binds the member as its first capped row does, two unbind it. */
  ghost predicate Elected(state: AxisState, key: string, votes: set<Literal>, first: Option<Binding>) {
    if votes == {} then key !in state.index && key !in state.live && first.None?
    else
      key in state.live && first.Some? && match state.live[key]
        case Some(literal) => votes == {literal} && key in state.index && state.index[key] == first.value
        case None => key !in state.index && exists a, b :: a in votes && b in votes && a != b
  }

  /** Where a carried block, read so far, leaves one member. */
  ghost predicate LeftAt(axis: Axis, state: AxisState, rows: seq<LedgerRow>, index: map<string, Binding>, key: string) {
    if key == "" || !Names(axis, rows, key) then
      key !in state.index && key !in state.live && key !in state.unbound
    else if key !in index then key !in state.index && key !in state.live && key in state.unbound
    else
      && key !in state.unbound
      && if Usable(index[key]) then key in state.index && state.index[key] == index[key] && key !in state.live
         else Elected(state, key, Votes(axis, rows, key), FirstVote(axis, rows, key))
  }

  lemma NamesOfLonger(axis: Axis, rows: seq<LedgerRow>, row: LedgerRow, key: string)
    requires row.Block?
    ensures Names(axis, rows + [row], key) <==> Names(axis, rows, key) || axis.KeyOf(row.fields) == key
  {
    var longer := rows + [row];
    assert longer[|rows|] == row;
    if Names(axis, rows, key) {
      var r :| r in rows && r.Block? && axis.KeyOf(r.fields) == key;
      assert r in longer;
    }
  }

  lemma FirstVoteOfLonger(axis: Axis, rows: seq<LedgerRow>, row: LedgerRow, key: string)
    ensures FirstVote(axis, rows + [row], key) ==
      if FirstVote(axis, rows, key).Some? then FirstVote(axis, rows, key)
      else if row.Block? && axis.KeyOf(row.fields) == key && BlockLiteral(axis, row.fields).Some? then
        Some(row.fields[GroupSource := LEGACY_LIVE])
      else None
  {
    assert (rows + [row])[..|rows|] == rows;
  }

  lemma OtherMembersStay(axis: Axis, state: AxisState, fields: Binding, carriage: Carriage, key: string)
    requires axis.KeyOf(fields) != key
    ensures var next := BlockOnAxis(axis, state, true, fields, carriage);
      && (key in next.index <==> key in state.index) && (key in next.index ==> next.index[key] == state.index[key])
      && (key in next.live <==> key in state.live) && (key in next.live ==> next.live[key] == state.live[key])
      && (key in next.unbound <==> key in state.unbound)
  {
  }

  lemma NoNameNoVote(axis: Axis, rows: seq<LedgerRow>, key: string)
    requires !Names(axis, rows, key)
    ensures Votes(axis, rows, key) == {} && FirstVote(axis, rows, key).None?
  {
    if rows != [] {
      var earlier, row := rows[..|rows| - 1], rows[|rows| - 1];
      assert rows == earlier + [row] && row in rows;
      assert forall r :: r in earlier ==> r in rows;
      NoNameNoVote(axis, earlier, key);
    }
  }

  /** An unusable carriage leaves the decision to the row's own cap. */
  lemma UnusableVotes(
      axis: Axis, state: AxisState, row: LedgerRow, binding: Binding, votes: set<Literal>, first: Option<Binding>)
    requires row.Block? && CarriageOf(axis, row) == Carried(binding) && !Usable(binding)
    requires var key := axis.KeyOf(row.fields);
      key != "" && key !in state.unbound && Elected(state, key, votes, first)
    ensures var key, literal := axis.KeyOf(row.fields), BlockLiteral(axis, row.fields);
      var next := BlockOnAxis(axis, state, true, row.fields, CarriageOf(axis, row));
      && key !in next.unbound
      && Elected(next, key, if literal.Some? then votes + {literal.value} else votes,
                 if first.Some? || literal.None? then first else Some(row.fields[GroupSource := LEGACY_LIVE]))
  {
    var key, literal := axis.KeyOf(row.fields), BlockLiteral(axis, row.fields);
    if literal.Some? && key in state.live && state.live[key].Some? && state.live[key].value != literal.value {
      assert literal.value in votes + {literal.value} && state.live[key].value in votes + {literal.value};
    }
  }

  lemma LeftAfterOwnRow(
      axis: Axis, state: AxisState, earlier: seq<LedgerRow>, row: LedgerRow, index: map<string, Binding>, key: string)
    requires LeftAt(axis, state, earlier, index, key) && Owned(axis, index) && TellsSource(axis, row, index)
    requires axis.KeyOf(row.fields) == key && key != ""
    ensures LeftAt(axis, BlockOnAxis(axis, state, true, row.fields, CarriageOf(axis, row)), earlier + [row], index, key)
  {
    NamesOfLonger(axis, earlier, row, key);
    if key in index && !Usable(index[key]) {
      if !Names(axis, earlier, key) { NoNameNoVote(axis, earlier, key); }
      UnusableVotes(axis, state, row, index[key], Votes(axis, earlier, key), FirstVote(axis, earlier, key));
      VotesOfLonger(axis, earlier, row, key);
      FirstVoteOfLonger(axis, earlier, row, key);
    }
  }

  lemma LeftAfterOtherRow(
      axis: Axis, state: AxisState, earlier: seq<LedgerRow>, row: LedgerRow, index: map<string, Binding>, key: string)
    requires LeftAt(axis, state, earlier, index, key) && row.Block? && (axis.KeyOf(row.fields) != key || key == "")
    ensures LeftAt(axis, BlockOnAxis(axis, state, true, row.fields, CarriageOf(axis, row)), earlier + [row], index, key)
  {
    NamesOfLonger(axis, earlier, row, key);
    if axis.KeyOf(row.fields) != key {
      OtherMembersStay(axis, state, row.fields, CarriageOf(axis, row), key);
      VotesOfLonger(axis, earlier, row, key);
      FirstVoteOfLonger(axis, earlier, row, key);
    }
  }

  /** What a carried block does to each member, whatever caps were bound: a usable binding is
      given back, an open member stays open, and an unusable binding is put to the vote. */
  lemma {:induction false} BlockRestores(axis: Axis, block: seq<LedgerRow>, index: map<string, Binding>, key: string)
    requires Owned(axis, index) && forall row :: row in block ==> TellsSource(axis, row, index)
    ensures LeftAt(axis, AxisOf(Folded(EMPTY.(carried := true), block), axis), block, index, key)
    ensures Folded(EMPTY.(carried := true), block).carried
  {
    if block != [] {
      var earlier, row := block[..|block| - 1], block[|block| - 1];
      assert block == earlier + [row] && row in block;
      BlockRestores(axis, earlier, index, key);
      var state := AxisOf(Folded(EMPTY.(carried := true), earlier), axis);
      if axis.KeyOf(row.fields) == key && key != "" {
        LeftAfterOwnRow(axis, state, earlier, row, index, key);
      } else {
        LeftAfterOtherRow(axis, state, earlier, row, index, key);
      }
    }
  }

  /** A binding survives a carried block when its caps are usable, or when the rows of its
      member agree on one literal and the first of them happens to spell that very binding. */
  ghost predicate ComesBack(axis: Axis, block: seq<LedgerRow>, key: string, binding: Binding) {
    || Usable(binding)
    || (FirstVote(axis, block, key) == Some(binding) &&
        forall a, b :: a in Votes(axis, block, key) && b in Votes(axis, block, key) ==> a == b)
  }

  ghost predicate AllComeBack(axis: Axis, block: seq<LedgerRow>, index: map<string, Binding>) {
    forall key :: key in index ==> ComesBack(axis, block, key, index[key])
  }

  lemma MemberComesBack(axis: Axis, state: AxisState, block: seq<LedgerRow>, index: map<string, Binding>, key: string)
    requires LeftAt(axis, state, block, index, key) && key in index && key != "" && Names(axis, block, key)
    ensures key in state.index && state.index[key] == index[key] <==> ComesBack(axis, block, key, index[key])
  {
  }

  /** One axis is restored exactly when each of its bindings comes back. */
  lemma RestoresAxisExactly(axis: Axis, block: seq<LedgerRow>, index: map<string, Binding>)
    requires CarriesAxis(axis, block, index) && Owned(axis, index)
    ensures AxisOf(Folded(EMPTY.(carried := true), block), axis).index == index <==> AllComeBack(axis, block, index)
  {
    var after := AxisOf(Folded(EMPTY.(carried := true), block), axis).index;
    forall key ensures MemberRestored(axis, block, after, index, key) {
      BlockRestores(axis, block, index, key);
      if key in index {
        assert Names(axis, block, key);
        MemberComesBack(axis, AxisOf(Folded(EMPTY.(carried := true), block), axis), block, index, key);
      }
    }
    RestoredMemberwise(axis, block, after, index);
  }

  ghost predicate MemberRestored(
      axis: Axis, block: seq<LedgerRow>, after: map<string, Binding>, index: map<string, Binding>, key: string) {
    if key in index then key in after && after[key] == index[key] <==> ComesBack(axis, block, key, index[key])
    else key !in after
  }

  lemma RestoredMemberwise(axis: Axis, block: seq<LedgerRow>, after: map<string, Binding>, index: map<string, Binding>)
    requires forall key :: MemberRestored(axis, block, after, index, key)
    ensures after == index <==> AllComeBack(axis, block, index)
  {
    if after == index {
      forall key | key in index ensures ComesBack(axis, block, key, index[key]) {
        assert MemberRestored(axis, block, after, index, key);
      }
    }
    forall key ensures key in after ==> key in index { assert MemberRestored(axis, block, after, index, key); }
    if AllComeBack(axis, block, index) {
      forall key | key in index ensures key in after && after[key] == index[key] {
        assert MemberRestored(axis, block, after, index, key);
      }
    }
    if AllComeBack(axis, block, index) {
      assert after.Keys == index.Keys;
    }
  }

  /** Where no block row has a cap of its own, that is exactly when every bound cap is null or
      a finite amount. */
  lemma CaplessRestoresUsable(axis: Axis, block: seq<LedgerRow>, index: map<string, Binding>)
    requires CarriesAxis(axis, block, index) && Owned(axis, index)
    requires forall row :: row in block && row.Block? ==> BlockLiteral(axis, row.fields).None?
    ensures AxisOf(Folded(EMPTY.(carried := true), block), axis).index == index <==>
      forall key :: key in index ==> Usable(index[key])
  {
    RestoresAxisExactly(axis, block, index);
    forall key ensures FirstVote(axis, block, key).None? { CaplessCastNoVote(axis, block, key); }
  }

  lemma {:induction false} CaplessCastNoVote(axis: Axis, rows: seq<LedgerRow>, key: string)
    requires forall row :: row in rows && row.Block? ==> BlockLiteral(axis, row.fields).None?
    ensures FirstVote(axis, rows, key).None?
  {
    if rows != [] {
      assert rows[|rows| - 1] in rows;
      CaplessCastNoVote(axis, rows[..|rows| - 1], key);
    }
  }

  /** Original rows read nothing but the two indexes. */
  lemma {:induction false} SuffixReadsIndexes(one: State, other: State, suffix: seq<LedgerRow>)
    requires Originals(suffix)
    requires one.roots.index == other.roots.index && one.groups.index == other.groups.index
    ensures Folded(one, suffix).roots.index == Folded(other, suffix).roots.index
    ensures Folded(one, suffix).groups.index == Folded(other, suffix).groups.index
  {
    if suffix != [] {
      SuffixReadsIndexes(one, other, suffix[..|suffix| - 1]);
      assert suffix[|suffix| - 1] in suffix;
    }
  }

  lemma {:induction false} FoldedInTwoParts(state: State, first: seq<LedgerRow>, second: seq<LedgerRow>)
    ensures Folded(state, first + second) == Folded(Folded(state, first), second)
  {
    if second == [] {
      assert first + second == first;
    } else {
      var n := |second| - 1;
      assert (first + second)[..|first| + n] == first + second[..n];
      FoldedInTwoParts(state, first, second[..n]);
    }
  }

  lemma FoldedOne(state: State, row: LedgerRow)
    ensures Folded(state, [row]) == Step(state, row)
  {
    assert [row][..0] == [];
  }

  ghost predicate SameAnswers(one: State, other: State) {
    one.roots.index == other.roots.index && one.groups.index == other.groups.index
  }

  lemma HeaderThenBlock(block: seq<LedgerRow>, suffix: seq<LedgerRow>)
    ensures Folded(EMPTY, [Header(true)] + block + suffix) == Folded(Folded(EMPTY.(carried := true), block), suffix)
  {
    FoldedInTwoParts(EMPTY, [Header(true)] + block, suffix);
    FoldedInTwoParts(EMPTY, [Header(true)], block);
    FoldedOne(EMPTY, Header(true));
  }

  /** One compaction of any ledger: the header, the block and later original rows answer as
      the rows the block replaced and the same later rows, for all later rows, exactly when
      every binding of the replaced rows comes back. */
  lemma CompactionIsInvisibleExactly(rows: seq<LedgerRow>, block: seq<LedgerRow>)
    requires Carries(block, Folded(EMPTY, rows))
    ensures var source := Folded(EMPTY, rows);
      (forall suffix :: Originals(suffix) ==>
         SameAnswers(Folded(EMPTY, [Header(true)] + block + suffix), Folded(source, suffix)))
      <==> AllComeBack(RootAxis, block, source.roots.index) && AllComeBack(GroupAxis, block, source.groups.index)
  {
    var source, restored := Folded(EMPTY, rows), Folded(EMPTY.(carried := true), block);
    FoldIsOwned(rows);
    RestoresAxisExactly(RootAxis, block, source.roots.index);
    RestoresAxisExactly(GroupAxis, block, source.groups.index);
    if SameAnswers(restored, source) {
      forall suffix | Originals(suffix)
        ensures SameAnswers(Folded(EMPTY, [Header(true)] + block + suffix), Folded(source, suffix))
      {
        HeaderThenBlock(block, suffix);
        SuffixReadsIndexes(restored, source, suffix);
      }
    } else {
      HeaderThenBlock(block, []);
      assert Originals([]) && !SameAnswers(Folded(EMPTY, [Header(true)] + block + []), Folded(source, []));
    }
  }

  /** In particular when every bound cap is null or a finite amount. */
  lemma CompactionIsInvisible(source: State, block: seq<LedgerRow>, suffix: seq<LedgerRow>)
    requires WellFormed(RootAxis, source.roots.index) && WellFormed(GroupAxis, source.groups.index)
    requires Carries(block, source) && Originals(suffix)
    ensures var compacted := Folded(EMPTY, [Header(true)] + block + suffix);
      && compacted.roots.index == Folded(source, suffix).roots.index
      && compacted.groups.index == Folded(source, suffix).groups.index
  {
    RestoresAxisExactly(RootAxis, block, source.roots.index);
    RestoresAxisExactly(GroupAxis, block, source.groups.index);
    HeaderThenBlock(block, suffix);
    SuffixReadsIndexes(Folded(EMPTY.(carried := true), block), source, suffix);
  }

  /** A cap that reads as no finite amount (infinite, negative, not a number) binds from an
      original row; carried by a capless row its binding is gone. */
  lemma UnusableCapIsLost(root: string, cap: Value)
    requires root != "" && cap.Scalar? && !cap.number.Finite?
    ensures var fields: Binding := map[RootTaskId := Scalar(root, NoNumber), RootLimit := cap];
      var source := Folded(EMPTY, [Original(fields)]);
      var block := [Block(map[RootTaskId := Scalar(root, NoNumber)], Carried(fields), Carried(fields))];
      && Carries(block, source)
      && root in source.roots.index
      && Folded(EMPTY, [Header(true)] + block).roots.index != source.roots.index
  {
    var fields: Binding := map[RootTaskId := Scalar(root, NoNumber), RootLimit := cap];
    var source := Folded(EMPTY, [Original(fields)]);
    var row := Block(map[RootTaskId := Scalar(root, NoNumber)], Carried(fields), Carried(fields));
    FoldedOne(EMPTY, Original(fields));
    assert source.roots.index == map[root := fields] && source.groups.index == map[root := fields];
    assert row in [row] && RootAxis.KeyOf(row.fields) == root && GroupAxis.KeyOf(row.fields) == root;
    FoldIsOwned([Original(fields)]);
    assert BlockLiteral(RootAxis, row.fields) == None;
    CaplessRestoresUsable(RootAxis, [row], source.roots.index);
    HeaderThenBlock([row], []);
    assert [Header(true)] + [row] + [] == [Header(true)] + [row];
  }

  // ---- repeated compaction ----

  /** The life of a ledger: rows as first written, then compacted and appended to again and again. */
  datatype History =
    | Written(rows: seq<LedgerRow>)
    | Compacted(earlier: History, block: seq<LedgerRow>, suffix: seq<LedgerRow>)

  /** The rows on disk now. */
  function OnDisk(history: History): seq<LedgerRow> {
    match history
    case Written(rows) => rows
    case Compacted(_, block, suffix) => [Header(true)] + block + suffix
  }

  /** The rows had nothing ever been compacted. */
  function Uncompacted(history: History): seq<LedgerRow> {
    match history
    case Written(rows) => rows
    case Compacted(earlier, _, suffix) => Uncompacted(earlier) + suffix
  }

  /** Every block carries what the rows before it answered, and loses no binding. */
  ghost predicate Faithful(history: History) {
    match history
    case Written(_) => true
    case Compacted(earlier, block, suffix) =>
      var source := Folded(EMPTY, OnDisk(earlier));
      && Faithful(earlier) && Originals(suffix) && Carries(block, source)
      && AllComeBack(RootAxis, block, source.roots.index) && AllComeBack(GroupAxis, block, source.groups.index)
  }

  /** However often a ledger was compacted, every root and group has the binding the
      uncompacted ledger gives it, and every one it leaves open is open. */
  lemma {:induction false} RepeatedCompactionIsInvisible(history: History)
    requires Faithful(history)
    ensures SameAnswers(Folded(EMPTY, OnDisk(history)), Folded(EMPTY, Uncompacted(history)))
  {
    match history
    case Written(_) =>
    case Compacted(earlier, block, suffix) =>
      RepeatedCompactionIsInvisible(earlier);
      CompactionIsInvisibleExactly(OnDisk(earlier), block);
      SuffixReadsIndexes(Folded(EMPTY, OnDisk(earlier)), Folded(EMPTY, Uncompacted(earlier)), suffix);
      FoldedInTwoParts(EMPTY, Uncompacted(earlier), suffix);
  }

  /** Every block carries what the rows before it answered, and only original rows follow it. */
  ghost predicate WellCarried(history: History) {
    match history
    case Written(_) => true
    case Compacted(earlier, block, suffix) =>
      WellCarried(earlier) && Originals(suffix) && Carries(block, Folded(EMPTY, OnDisk(earlier)))
  }

  /** The answers were the uncompacted ones at every moment of the ledger's life: right after
      each compaction, and after each row that followed it. */
  ghost predicate AlwaysInvisible(history: History) {
    match history
    case Written(_) => true
    case Compacted(earlier, block, suffix) =>
      && AlwaysInvisible(earlier)
      && forall k :: 0 <= k <= |suffix| ==> InvisibleAt(earlier, block, suffix[..k])
  }

  ghost predicate InvisibleAt(earlier: History, block: seq<LedgerRow>, suffix: seq<LedgerRow>) {
    var now := Compacted(earlier, block, suffix);
    SameAnswers(Folded(EMPTY, OnDisk(now)), Folded(EMPTY, Uncompacted(now)))
  }

  lemma InvisibleAtFirstIsLossless(earlier: History, block: seq<LedgerRow>)
    requires Carries(block, Folded(EMPTY, OnDisk(earlier))) && InvisibleAt(earlier, block, [])
    requires SameAnswers(Folded(EMPTY, OnDisk(earlier)), Folded(EMPTY, Uncompacted(earlier)))
    ensures var source := Folded(EMPTY, OnDisk(earlier));
      AllComeBack(RootAxis, block, source.roots.index) && AllComeBack(GroupAxis, block, source.groups.index)
  {
    HeaderThenBlock(block, []);
    assert Uncompacted(earlier) + [] == Uncompacted(earlier);
    FoldIsOwned(OnDisk(earlier));
    RestoresAxisExactly(RootAxis, block, Folded(EMPTY, OnDisk(earlier)).roots.index);
    RestoresAxisExactly(GroupAxis, block, Folded(EMPTY, OnDisk(earlier)).groups.index);
  }

  lemma AlwaysInvisibleNow(history: History)
    requires AlwaysInvisible(history)
    ensures SameAnswers(Folded(EMPTY, OnDisk(history)), Folded(EMPTY, Uncompacted(history)))
  {
    if history.Compacted? {
      assert history.suffix[..|history.suffix|] == history.suffix;
      assert InvisibleAt(history.earlier, history.block, history.suffix[..|history.suffix|]);
    }
  }

  /** Over whole histories: compaction is invisible at every moment exactly when no compaction
      loses a binding. */
  lemma {:induction false} InvisibleExactlyWhenLossless(history: History)
    requires WellCarried(history)
    ensures AlwaysInvisible(history) <==> Faithful(history)
  {
    match history
    case Written(_) =>
    case Compacted(earlier, block, suffix) =>
      InvisibleExactlyWhenLossless(earlier);
      if Faithful(history) {
        forall k | 0 <= k <= |suffix| ensures InvisibleAt(earlier, block, suffix[..k]) {
          RepeatedCompactionIsInvisible(Compacted(earlier, block, suffix[..k]));
        }
      }
      if AlwaysInvisible(history) {
        AlwaysInvisibleNow(earlier);
        assert InvisibleAt(earlier, block, suffix[..0]);
        InvisibleAtFirstIsLossless(earlier, block);
      }
  }

  /** The caps ever written are null or finite amounts, and every block carries its source. */
  ghost predicate UsableHistory(history: History) {
    match history
    case Written(rows) => UsableRows(rows)
    case Compacted(earlier, block, suffix) =>
      && UsableHistory(earlier) && Originals(suffix) && UsableRows(suffix)
      && Carries(block, Folded(EMPTY, OnDisk(earlier)))
  }

  /** Such a history loses no binding, however its blocks spell their own caps. */
  lemma {:induction false} UsableHistoryIsFaithful(history: History)
    requires UsableHistory(history)
    ensures Faithful(history)
    ensures var now := Folded(EMPTY, OnDisk(history));
      WellFormed(RootAxis, now.roots.index) && WellFormed(GroupAxis, now.groups.index)
  {
    match history
    case Written(rows) =>
      FoldIsWellFormed(EMPTY, rows);
    case Compacted(earlier, block, suffix) =>
      UsableHistoryIsFaithful(earlier);
      var source := Folded(EMPTY, OnDisk(earlier));
      CompactionIsInvisible(source, block, suffix);
      FoldIsWellFormed(source, suffix);
  }

  // ---- blocks that carried nothing: each row votes with its own literal ----

  ghost predicate Blocks(rows: seq<LedgerRow>) {
    forall row :: row in rows ==> row.Block?
  }

  /** The different literals the capped block rows of a member carry. */
  ghost function Votes(axis: Axis, rows: seq<LedgerRow>, key: string): set<Literal> {
    set row | row in rows && row.Block? && axis.KeyOf(row.fields) == key && BlockLiteral(axis, row.fields).Some? ::
      BlockLiteral(axis, row.fields).value
  }

  /** A binding elected by a vote reads as the elected literal in every field but its source,
      which tells where it comes from. */
  ghost predicate ReadsAs(fields: Binding, literal: Literal) {
    && GroupSource in fields && fields[GroupSource] == LEGACY_LIVE
    && forall field :: field in literal && field != GroupSource ==>
         field in fields && MarkOf(field, fields[field]) == literal[field]
  }

  /** What the votes of a member decide. */
  ghost predicate Decided(state: AxisState, key: string, votes: set<Literal>) {
    if votes == {} then key !in state.index && key !in state.live
    else
      key in state.live && match state.live[key]
        case Some(literal) => votes == {literal} && key in state.index && ReadsAs(state.index[key], literal)
        case None => key !in state.index && exists a, b :: a in votes && b in votes && a != b
  }

  lemma VotesOfLonger(axis: Axis, rows: seq<LedgerRow>, row: LedgerRow, key: string)
    requires row.Block?
    ensures Votes(axis, rows + [row], key) == Votes(axis, rows, key) +
      (if axis.KeyOf(row.fields) == key && BlockLiteral(axis, row.fields).Some? then
         {BlockLiteral(axis, row.fields).value}
       else {})
  {
    var longer := rows + [row];
    assert longer[|rows|] == row;
    forall literal
      ensures literal in Votes(axis, longer, key) <==>
        (literal in Votes(axis, rows, key) ||
         (axis.KeyOf(row.fields) == key && BlockLiteral(axis, row.fields) == Some(literal)))
    {
      if literal in Votes(axis, rows, key) {
        var r :| r in rows && r.Block? && axis.KeyOf(r.fields) == key && BlockLiteral(axis, r.fields) == Some(literal);
        assert r in longer;
      }
    }
  }

  lemma FirstVoteReadsAs(axis: Axis, fields: Binding)
    requires BlockLiteral(axis, fields).Some?
    ensures ReadsAs(fields[GroupSource := LEGACY_LIVE], BlockLiteral(axis, fields).value)
  {
  }

  /** Under a header that carries nothing, a member is bound exactly when its capped block
      rows all carry one literal, and then by that literal. */
  lemma {:induction false} VotesDecide(axis: Axis, rows: seq<LedgerRow>, key: string)
    requires Blocks(rows) && key != ""
    ensures var state := Folded(EMPTY, rows);
      Decided(AxisOf(state, axis), key, Votes(axis, rows, key)) && AxisOf(state, axis).unbound == {} && !state.carried
  {
    if rows != [] {
      var earlier, row := rows[..|rows| - 1], rows[|rows| - 1];
      assert rows == earlier + [row] && row in rows;
      VotesDecide(axis, earlier, key);
      VotesOfLonger(axis, earlier, row, key);
      VoteStep(axis, AxisOf(Folded(EMPTY, earlier), axis), row.fields, CarriageOf(axis, row), key,
        Votes(axis, earlier, key));
    }
  }

  lemma VoteStep(axis: Axis, state: AxisState, fields: Binding, carriage: Carriage, key: string, votes: set<Literal>)
    requires Decided(state, key, votes) && state.unbound == {} && key != ""
    ensures var next := BlockOnAxis(axis, state, false, fields, carriage);
      && next.unbound == {}
      && Decided(next, key, votes +
           (if axis.KeyOf(fields) == key && BlockLiteral(axis, fields).Some? then {BlockLiteral(axis, fields).value}
            else {}))
  {
    if axis.KeyOf(fields) == key && BlockLiteral(axis, fields).Some? {
      FirstVoteReadsAs(axis, fields);
      var vote := BlockLiteral(axis, fields).value;
      if key in state.live && state.live[key].Some? && state.live[key].value != vote {
        assert vote in votes + {vote} && state.live[key].value in votes + {vote};
      }
    }
  }

  lemma SameVotes(axis: Axis, one: seq<LedgerRow>, other: seq<LedgerRow>, key: string)
    requires multiset(one) == multiset(other)
    ensures Votes(axis, one, key) == Votes(axis, other, key)
  {
    forall row ensures row in one <==> row in other {
      assert row in one <==> row in multiset(one);
      assert row in other <==> row in multiset(other);
    }
  }

  /** So two blocks with the same rows, in any order, bind the same members by the same cap
      literals. */
  lemma BlockOrderDoesNotMatter(axis: Axis, one: seq<LedgerRow>, other: seq<LedgerRow>, key: string)
    requires Blocks(one) && Blocks(other) && multiset(one) == multiset(other) && key != ""
    ensures var a, b := AxisOf(Folded(EMPTY, one), axis), AxisOf(Folded(EMPTY, other), axis);
      && (key in a.index <==> key in b.index)
      && (key in a.live <==> key in b.live)
      && (key in a.live ==> a.live[key] == b.live[key])
  {
    VotesDecide(axis, one, key);
    VotesDecide(axis, other, key);
    SameVotes(axis, one, other, key);
  }

  /** Two different literals unbind a member, and no further block row binds it again. */
  lemma DisputedStaysDisputed(
      axis: Axis, rows: seq<LedgerRow>, more: seq<LedgerRow>, key: string, a: Literal, b: Literal)
    requires Blocks(rows) && Blocks(more) && key != ""
    requires a in Votes(axis, rows, key) && b in Votes(axis, rows, key) && a != b
    ensures key !in AxisOf(Folded(EMPTY, rows + more), axis).index
  {
    VotesDecide(axis, rows + more, key);
    forall literal | literal in Votes(axis, rows, key) ensures literal in Votes(axis, rows + more, key) {
      var r :| r in rows && r.Block? && axis.KeyOf(r.fields) == key && BlockLiteral(axis, r.fields) == Some(literal);
      assert r in rows + more;
    }
  }
}
