/** Spending-limit bindings: for a root or a billing group, the one that came first. */
module BindingIndex {
  import opened Options

  /** What a scalar reads as when a number is wanted; negative and malformed ones read as none. */
  datatype Reading = NoNumber | Infinite | Finite(amount: real)

  datatype Value = Null | Scalar(text: string, number: Reading)

  datatype Field =
    | RootTaskId | GroupId | GroupLimit | GroupSource | GroupRevision | RootLimit | RootSource | RootRevision

  /** Some of the fields, each null or a scalar; an absent field is not in the map. */
  type Binding = map<Field, Value>

  const LEGACY_LIVE := Scalar("legacy_live", NoNumber)

  predicate IsCap(field: Field) {
    field.GroupLimit? || field.RootLimit?
  }

  predicate HasCap(fields: Binding) {
    GroupLimit in fields || RootLimit in fields
  }

  function KeyText(fields: Binding, field: Field): string {
    if field in fields && fields[field].Scalar? then fields[field].text else ""
  }

  /** The root a row is charged to, "" when it names none. */
  function ScopeKey(fields: Binding): string {
    KeyText(fields, RootTaskId)
  }

  /** The billing group of a row; rows from before groups belong to their root's own. */
  function GroupKey(fields: Binding): string {
    if KeyText(fields, GroupId) != "" then KeyText(fields, GroupId) else ScopeKey(fields)
  }

  datatype Axis = RootAxis | GroupAxis {
    function KeyOf(fields: Binding): string {
      if RootAxis? then ScopeKey(fields) else GroupKey(fields)
    }

    /** The fields a vote is compared by: on the group axis the group's own cap and its source,
        or without one the root cap; on the root axis all of them. */
    function Fields(fields: Binding): set<Field> {
      if RootAxis? then
        {RootTaskId, GroupId, GroupLimit, GroupSource, GroupRevision, RootLimit, RootSource, RootRevision}
      else if GroupLimit in fields then {GroupId, GroupLimit, GroupSource, GroupRevision}
      else {RootTaskId, RootLimit}
    }
  }

  /** A field as block rows are compared: caps by their number, everything else verbatim. */
  datatype Mark = CapMark(number: Option<Reading>) | PlainMark(value: Value)

  type Literal = map<Field, Mark>

  function MarkOf(field: Field, value: Value): Mark {
    if !IsCap(field) then PlainMark(value)
    else if value.Null? || value.number.NoNumber? then CapMark(None)
    else CapMark(Some(value.number))
  }

  function BlockLiteral(axis: Axis, fields: Binding): Option<Literal> {
    var literal := map field | field in fields && field in axis.Fields(fields) :: MarkOf(field, fields[field]);
    if GroupLimit in literal || RootLimit in literal then Some(literal) else None
  }

  /** What a block row says about its member's source binding. `Malformed` is anything that is
      neither absent, the unbound mark, nor a mapping over the binding fields. */
  datatype Carriage = Absent | NoOriginal | Malformed | Carried(binding: Binding)

  /** A ledger row, as far as bindings go. */
  datatype LedgerRow =
    | Header(carried: bool)
    | Block(fields: Binding, rootCarriage: Carriage, groupCarriage: Carriage)
    | Original(fields: Binding)

  predicate UsableCap(fields: Binding, cap: Field) {
    cap in fields ==> fields[cap].Null? || fields[cap].number.Finite?
  }

  /** Whether a carriage can be taken for `key`: owned by it, with a cap, each cap null or finite. */
  predicate IsCarriedFor(axis: Axis, carriage: Carriage, key: string) {
    && carriage.Carried? && axis.KeyOf(carriage.binding) == key && HasCap(carriage.binding)
    && UsableCap(carriage.binding, GroupLimit) && UsableCap(carriage.binding, RootLimit)
  }

  /** One axis of the index: the bindings, the members a block left open, and the block
      literal of each member bound from one (None once disputed). */
  datatype AxisState = AxisState(index: map<string, Binding>, unbound: set<string>, live: map<string, Option<Literal>>)

  datatype State = State(roots: AxisState, groups: AxisState, carried: bool)

  const EMPTY_AXIS := AxisState(map[], {}, map[])
  const EMPTY := State(EMPTY_AXIS, EMPTY_AXIS, false)

  // ---- what one row does ----

  function BlockOnAxis(axis: Axis, state: AxisState, carried: bool, fields: Binding, carriage: Carriage): AxisState {
    var key := axis.KeyOf(fields);
    var literal := BlockLiteral(axis, fields);
    if key == "" || key in state.unbound then state
    else if key in state.live then
      if literal.Some? && state.live[key].Some? && literal != state.live[key] then
        state.(index := state.index - {key}, live := state.live[key := None])
      else state
    else if key in state.index then state
    else if carried && carriage.NoOriginal? then state.(unbound := state.unbound + {key})
    else if carried && IsCarriedFor(axis, carriage, key) then state.(index := state.index[key := carriage.binding])
    else if literal.None? then state
    else state.(live := state.live[key := literal], index := state.index[key := fields[GroupSource := LEGACY_LIVE]])
  }

  function Bound(index: map<string, Binding>, key: string, fields: Binding): map<string, Binding> {
    if key == "" || key in index then index else index[key := fields]
  }

  /** An original row binds whichever of its two members is still open. */
  function OriginalRow(state: State, fields: Binding): State {
    if !HasCap(fields) then state
    else State(
      state.roots.(index := Bound(state.roots.index, ScopeKey(fields), fields)),
      state.groups.(index := Bound(state.groups.index, GroupKey(fields), fields)),
      state.carried)
  }

  function Step(state: State, row: LedgerRow): State {
    match row
    case Header(carried) => state.(carried := carried)
    case Block(fields, rootCarriage, groupCarriage) => State(
      BlockOnAxis(RootAxis, state.roots, state.carried, fields, rootCarriage),
      BlockOnAxis(GroupAxis, state.groups, state.carried, fields, groupCarriage),
      state.carried)
    case Original(fields) => OriginalRow(state, fields)
  }

  function Folded(state: State, rows: seq<LedgerRow>): State {
    if rows == [] then state else Step(Folded(state, rows[..|rows| - 1]), rows[|rows| - 1])
  }

  // ---- what a row's fields say ----

  /** Two block rows vote alike on the root axis exactly when they carry the same fields alike,
      on the group axis when the group's own fields are alike, whatever the roots' caps are; a cap
      counts by the number it reads as. A row votes exactly when it has a cap of that axis. */
  lemma VotesAlike(one: Binding, other: Binding)
    requires GroupLimit in one && GroupLimit in other
    ensures BlockLiteral(RootAxis, one).Some? && BlockLiteral(GroupAxis, one).Some?
    ensures BlockLiteral(GroupAxis, one) == BlockLiteral(GroupAxis, other) <==>
      forall field :: field in {GroupId, GroupLimit, GroupSource, GroupRevision} ==> ReadsAlike(field, one, other)
    ensures BlockLiteral(RootAxis, one) == BlockLiteral(RootAxis, other) <==>
      forall field :: ReadsAlike(field, one, other)
  {
    LiteralsAlike(RootAxis, one, other);
    LiteralsAlike(GroupAxis, one, other);
    forall field: Field ensures field in RootAxis.Fields(one) { EveryFieldCounts(field, one); }
  }

  /** Without a group cap the root's own cap is the vote on the group axis too. */
  lemma UngroupedVotesAlike(one: Binding, other: Binding)
    requires GroupLimit !in one && GroupLimit !in other && RootLimit in one && RootLimit in other
    ensures BlockLiteral(RootAxis, one).Some? && BlockLiteral(GroupAxis, one).Some?
    ensures BlockLiteral(GroupAxis, one) == BlockLiteral(GroupAxis, other) <==>
      ReadsAlike(RootTaskId, one, other) && ReadsAlike(RootLimit, one, other)
    ensures BlockLiteral(RootAxis, one) == BlockLiteral(RootAxis, other) <==>
      forall field :: ReadsAlike(field, one, other)
  {
    LiteralsAlike(RootAxis, one, other);
    LiteralsAlike(GroupAxis, one, other);
    forall field: Field ensures field in RootAxis.Fields(one) { EveryFieldCounts(field, one); }
  }

  lemma EveryFieldCounts(field: Field, fields: Binding)
    ensures field in RootAxis.Fields(fields)
  {
    match field
    case RootTaskId =>
    case GroupId =>
    case GroupLimit =>
    case GroupSource =>
    case GroupRevision =>
    case RootLimit =>
    case RootSource =>
    case RootRevision =>
  }

  lemma CaplessDoesNotVote(axis: Axis, fields: Binding)
    ensures BlockLiteral(axis, fields).None? <==> !HasCap(fields)
  {
  }

  /** A field read alike: absent in both, or with the same value, or a cap with the same number. */
  ghost predicate ReadsAlike(field: Field, one: Binding, other: Binding) {
    && (field in one <==> field in other)
    && (field in one ==>
          || one[field] == other[field]
          || (field in {GroupLimit, RootLimit} && NumberOf(one[field]) == NumberOf(other[field])))
  }

  /** The number of a cap; null and what reads as no number have none. */
  function NumberOf(value: Value): Reading {
    if value.Null? then NoNumber else value.number
  }

  lemma LiteralsAlike(axis: Axis, one: Binding, other: Binding)
    requires HasCap(one) && HasCap(other) && axis.Fields(one) == axis.Fields(other)
    ensures BlockLiteral(axis, one) == BlockLiteral(axis, other) <==>
      forall field :: field in axis.Fields(one) ==> ReadsAlike(field, one, other)
  {
    var a := map field | field in one && field in axis.Fields(one) :: MarkOf(field, one[field]);
    var b := map field | field in other && field in axis.Fields(other) :: MarkOf(field, other[field]);
    forall field | field in axis.Fields(one)
      ensures ReadsAlike(field, one, other) <==>
        (field in a <==> field in b) && (field in a ==> a[field] == b[field])
    {
    }
    if a == b {
      forall field | field in axis.Fields(one) ensures ReadsAlike(field, one, other) {
        assert field in a <==> field in b;
      }
    }
    if forall field :: field in axis.Fields(one) ==> ReadsAlike(field, one, other) {
      assert a.Keys == b.Keys;
      assert a == b;
    }
  }

  /** A row is charged to the root it names; it belongs to the group it names, or without one to
      its root's own. */
  lemma RowBelongs(fields: Binding, root: string, group: string)
    requires RootTaskId in fields && KeyText(fields, RootTaskId) == root
    requires KeyText(fields, GroupId) == group
    ensures RootAxis.KeyOf(fields) == root
    ensures GroupAxis.KeyOf(fields) == if group != "" then group else root
  {
  }

  /** Without the header's stamp no carriage is read; with it, one that is absent, malformed or
      another member's leaves the row to its own cap, as an unstamped header does. */
  lemma CarriageNotTaken(axis: Axis, state: AxisState, fields: Binding, one: Carriage, other: Carriage)
    ensures BlockOnAxis(axis, state, false, fields, one) == BlockOnAxis(axis, state, false, fields, other)
    ensures one.Absent? || one.Malformed? || (one.Carried? && axis.KeyOf(one.binding) != axis.KeyOf(fields)) ==>
      BlockOnAxis(axis, state, true, fields, one) == BlockOnAxis(axis, state, false, fields, other)
  {
  }

  // ---- original rows: the first one binds ----

  /** A capped original row of the member. */
  predicate Claims(axis: Axis, row: LedgerRow, key: string) {
    row.Original? && HasCap(row.fields) && axis.KeyOf(row.fields) == key
  }

  function IndexOf(state: State, axis: Axis): map<string, Binding> {
    if axis.RootAxis? then state.roots.index else state.groups.index
  }

  /** No original row changes or removes a binding that stands, carried ones included; it binds
      its own members only, with its own fields. */
  lemma OriginalKeepsBindings(state: State, fields: Binding, axis: Axis, key: string)
    ensures var before, after := IndexOf(state, axis), IndexOf(Step(state, Original(fields)), axis);
      && (key in before ==> key in after && after[key] == before[key])
      && (key !in before ==>
            if key != "" && Claims(axis, Original(fields), key) then key in after && after[key] == fields
            else key !in after)
  {
  }

  /** What original rows leave at a member. */
  ghost predicate BoundByFirst(
      before: map<string, Binding>, after: map<string, Binding>, rows: seq<LedgerRow>, axis: Axis, key: string) {
    if key in before then key in after && after[key] == before[key]
    else if key in after then exists i :: IsFirstClaim(axis, rows, key, i) && after[key] == rows[i].fields
    else forall i :: 0 <= i < |rows| ==> !Claims(axis, rows[i], key)
  }

  lemma OneMoreOriginal(
      before: map<string, Binding>, after: map<string, Binding>, next: map<string, Binding>,
      rows: seq<LedgerRow>, last: LedgerRow, axis: Axis, key: string)
    requires BoundByFirst(before, after, rows, axis, key) && last.Original? && key != ""
    requires key in after ==> key in next && next[key] == after[key]
    requires key !in after ==>
      if Claims(axis, last, key) then key in next && next[key] == last.fields else key !in next
    ensures BoundByFirst(before, next, rows + [last], axis, key)
  {
    var longer := rows + [last];
    assert longer[|rows|] == last && forall i :: 0 <= i < |rows| ==> longer[i] == rows[i];
    if key !in before && key in next {
      if key in after {
        var i :| IsFirstClaim(axis, rows, key, i) && after[key] == rows[i].fields;
        assert IsFirstClaim(axis, longer, key, i);
      } else {
        assert IsFirstClaim(axis, longer, key, |rows|);
      }
    }
  }

  /** After any original rows on any index: a member that was bound is bound as it was; any other
      is bound exactly when a capped row claims it, by the first that does. */
  lemma {:induction false} FirstOriginalWins(state: State, rows: seq<LedgerRow>, axis: Axis, key: string)
    requires key != "" && forall row :: row in rows ==> row.Original?
    ensures BoundByFirst(IndexOf(state, axis), IndexOf(Folded(state, rows), axis), rows, axis, key)
  {
    if rows != [] {
      var earlier, last := rows[..|rows| - 1], rows[|rows| - 1];
      assert rows == earlier + [last] && last in rows;
      FirstOriginalWins(state, earlier, axis, key);
      var between := Folded(state, earlier);
      OriginalKeepsBindings(between, last.fields, axis, key);
      OneMoreOriginal(IndexOf(state, axis), IndexOf(between, axis), IndexOf(Step(between, last), axis),
                      earlier, last, axis, key);
    }
  }

  ghost predicate IsFirstClaim(axis: Axis, rows: seq<LedgerRow>, key: string, i: int) {
    0 <= i < |rows| && Claims(axis, rows[i], key) && forall j :: 0 <= j < i ==> !Claims(axis, rows[j], key)
  }

  /** The index, updated in place row by row. The two axes share no entry: the source keys
      its open members and block literals by the carrying axis too. */
  class Index {
    var roots: AxisState
    var groups: AxisState
    var carried: bool

    ghost function Value(): State
      reads this
    {
      State(roots, groups, carried)
    }

    constructor ()
      ensures Value() == EMPTY
    {
      roots, groups, carried := EMPTY_AXIS, EMPTY_AXIS, false;
    }

    method Fold(row: LedgerRow)
      modifies this
      ensures Value() == Step(old(Value()), row)
    {
      match row {
        case Header(stamp) =>
          carried := stamp;
        case Block(fields, rootCarriage, groupCarriage) =>
          roots := FoldBlock(RootAxis, roots, carried, fields, rootCarriage);
          groups := FoldBlock(GroupAxis, groups, carried, fields, groupCarriage);
        case Original(fields) =>
          var root, group := ScopeKey(fields), GroupKey(fields);
          if ((root != "" && root !in roots.index) || (group != "" && group !in groups.index)) && HasCap(fields) {
            if root != "" && root !in roots.index {
              roots := roots.(index := roots.index[root := fields]);
            }
            if group != "" && group !in groups.index {
              groups := groups.(index := groups.index[group := fields]);
            }
          }
      }
    }
  }

  method FoldBlock(axis: Axis, state: AxisState, carried: bool, fields: Binding, offered: Carriage)
      returns (next: AxisState)
    ensures next == BlockOnAxis(axis, state, carried, fields, offered)
  {
    next := state;
    var key := axis.KeyOf(fields);
    if key == "" || key in state.unbound {
      return;
    }
    var literal := BlockLiteral(axis, fields);
    if key in state.live {  // elected before: this row confirms or disputes
      if literal.Some? && state.live[key].Some? && literal != state.live[key] {
        next := next.(index := next.index - {key}, live := next.live[key := None]);
      }
      return;
    }
    if key in state.index {
      return;
    }
    var carriage := if carried then offered else Absent;
    if carriage.NoOriginal? {
      next := next.(unbound := next.unbound + {key});
      return;
    }
    var bound := fields[GroupSource := LEGACY_LIVE];
    if IsCarriedFor(axis, carriage, key) {
      bound := carriage.binding;
    } else if literal.None? {
      return;
    } else {
      next := next.(live := next.live[key := literal]);
    }
    next := next.(index := next.index[key := bound]);
  }
}
