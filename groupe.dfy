/**
 * The group maker: a teacher selects students from the class roster, types a group
 * size, and the tool splits the shuffled selection into balanced groups; students can
 * then be dragged from one group card to another.
 */
module Groupe {
  import opened Wrappers
  import opened JsString

  /** A student of the roster; only the id and the name matter to the tool. */
  datatype Student = Student(id: int, name: string)

  type Groups = seq<seq<Student>>

  // ---------------------------------------------------------------------------------
  // Balanced partition

  /** `Math.ceil(n / t)` on non-negative integers. */
  function CeilDiv(n: nat, t: nat): (g: nat)
    requires t > 0
    ensures g == 0 <==> n == 0
    ensures n > 0 ==> (g - 1) * t < n <= g * t
  {
    CeilDivBounds(n, t);
    (n + t - 1) / t
  }

  lemma CeilDivBounds(n: nat, t: nat)
    requires t > 0
    ensures var g := (n + t - 1) / t; (g == 0 <==> n == 0) && (n > 0 ==> (g - 1) * t < n <= g * t)
  {
    var g := (n + t - 1) / t;
    var r := (n + t - 1) % t;
    assert n + t - 1 == g * t + r && 0 <= r < t;
    assert (g - 1) * t == g * t - t;
  }

  /**
   * The size of group `i` when `n` students go into `g` groups: the first `n % g`
   * groups get one student more than the others.
   */
  function GroupSize(n: nat, g: nat, i: nat): nat
    requires g > 0
  {
    n / g + (if i < n % g then 1 else 0)
  }

  /** All the students of the groups, group after group. */
  function Flatten(groups: Groups): seq<Student> {
    if groups == [] then [] else Flatten(groups[..|groups| - 1]) + groups[|groups| - 1]
  }

  /**
   * `groups` is the balanced split of `students` into groups of at most `size`: as few
   * groups as that allows, consecutive slices of `students`, sizes as even as possible
   * with the larger groups first.
   */
  ghost predicate IsBalancedSplit(groups: Groups, students: seq<Student>, size: nat)
    requires size > 0
  {
    && |groups| == CeilDiv(|students|, size)
    && Flatten(groups) == students
    && forall i :: 0 <= i < |groups| ==> |groups[i]| == GroupSize(|students|, |groups|, i)
  }

  lemma MulMono(a: int, b: int, c: int)
    requires a <= b && c >= 0
    ensures a * c <= b * c && c * a <= c * b
  {
  }

  /**
   * `createGroupe` after the shuffle: slices the (already shuffled) students into
   * `Math.ceil(n / size)` groups, the first `n % groups` of them one student larger.
   */
  method CreateGroups(shuffled: seq<Student>, size: nat) returns (groups: Groups)
    requires size > 0
    ensures IsBalancedSplit(groups, shuffled, size)
  {
    var n := |shuffled|;
    var count := CeilDiv(n, size);
    groups := [];
    if count == 0 {
      return;
    }
    var base := n / count;
    var extra := n % count;
    var index := 0;
    for i := 0 to count
      invariant |groups| == i
      invariant index == Offset(n, count, i) <= n
      invariant Flatten(groups) == shuffled[..index]
      invariant forall k :: 0 <= k < i ==> |groups[k]| == GroupSize(n, count, k)
    {
      var groupSize := if i < extra then base + 1 else base;
      OffsetWithin(n, count, i + 1);
      var group := shuffled[index..index + groupSize];
      FlattenAppend(groups, group);
      assert shuffled[..index] + group == shuffled[..index + groupSize];
      groups := groups + [group];
      index := index + groupSize;
    }
    OffsetWithin(n, count, count);
    assert shuffled[..index] == shuffled;
  }

  /** Where group `i` starts: the students of the groups before it. */
  function Offset(n: nat, g: nat, i: nat): nat
    requires g > 0
  {
    if i == 0 then 0 else Offset(n, g, i - 1) + GroupSize(n, g, i - 1)
  }

  function Min(a: int, b: int): int { if a <= b then a else b }

  /** The first `i` groups hold `i` base-sized groups plus one extra student for each of them among the first `n % g`. */
  lemma {:induction false} OffsetClosed(n: nat, g: nat, i: nat)
    requires g > 0
    ensures Offset(n, g, i) == i * (n / g) + Min(i, n % g)
  {
    if i > 0 {
      OffsetClosed(n, g, i - 1);
      assert i * (n / g) == (i - 1) * (n / g) + n / g;
    }
  }

  /** Every group ends within the students, and the last one ends exactly at the end. */
  lemma OffsetWithin(n: nat, g: nat, i: nat)
    requires g > 0 && i <= g
    ensures Offset(n, g, i) <= n
    ensures i == g ==> Offset(n, g, i) == n
  {
    OffsetClosed(n, g, i);
    var base := n / g;
    var extra := n % g;
    assert n == g * base + extra;
    MulMono(i, g, base);
  }

  lemma FlattenAppend(groups: Groups, g: seq<Student>)
    ensures Flatten(groups + [g]) == Flatten(groups) + g
  {
    assert (groups + [g])[..|groups|] == groups;
  }

  /**
   * A balanced split of a non-empty selection uses as few groups as the size allows: every
   * group holds between 1 and `size` students, and one group fewer could not hold them all.
   */
  lemma {:induction false} GroupCountMinimal(groups: Groups, students: seq<Student>, size: nat)
    requires size > 0 && |students| > 0
    requires IsBalancedSplit(groups, students, size)
    ensures forall i :: 0 <= i < |groups| ==> 1 <= |groups[i]| <= size
    ensures (|groups| - 1) * size < |students|
  {
    forall i | 0 <= i < |groups|
      ensures 1 <= |groups[i]| <= size
    {
      GroupSizesBalanced(|students|, size, i, i);
    }
  }

  /** Every group of a balanced split of a non-empty selection has between 1 and `size` students,
      and two groups differ by at most one student, the larger ones first. */
  lemma {:induction false} GroupSizesBalanced(n: nat, size: nat, i: nat, j: nat)
    requires size > 0 && n > 0
    requires i <= j < CeilDiv(n, size)
    ensures 1 <= GroupSize(n, CeilDiv(n, size), i) <= size
    ensures GroupSize(n, CeilDiv(n, size), j) <= GroupSize(n, CeilDiv(n, size), i) <= GroupSize(n, CeilDiv(n, size), j) + 1
  {
    var g := CeilDiv(n, size);
    var base := n / g;
    var extra := n % g;
    SplitBounds(n, size, g, base, extra);
  }

  /** The arithmetic behind the balance: with `n == g * base + extra` and `g` groups just enough for `n`,
      the base size is at least 1 and a group with the extra student still fits `size`. */
  lemma SplitBounds(n: nat, size: nat, g: nat, base: int, extra: int)
    requires size > 0 && g > 0 && n > 0
    requires n == g * base + extra && 0 <= extra < g
    requires (g - 1) * size < n <= g * size
    ensures 1 <= base <= size
    ensures extra > 0 ==> base + 1 <= size
  {
    MulMono(1, size, g - 1);
    BaseAtLeastOne(n, g, base, extra);
    BaseFits(n, size, g, base, extra);
  }

  lemma BaseAtLeastOne(n: nat, g: nat, base: int, extra: int)
    requires 0 < g <= n && n == g * base + extra && 0 <= extra < g
    ensures base >= 1
  {
    if base <= 0 {
      MulMono(base, 0, g);
    }
  }

  lemma BaseFits(n: nat, size: nat, g: nat, base: int, extra: int)
    requires g > 0 && n == g * base + extra && 0 <= extra && n <= g * size
    ensures base <= size
    ensures extra > 0 ==> base + 1 <= size
  {
    if base > size {
      MulMono(size + 1, base, g);
    }
  }

  /** The balanced split is determined by the students and the size: it is the only one. */
  lemma {:induction false} BalancedSplitUnique(a: Groups, b: Groups, students: seq<Student>, size: nat)
    requires size > 0
    requires IsBalancedSplit(a, students, size) && IsBalancedSplit(b, students, size)
    ensures a == b
  {
    FlattenInjective(a, b);
  }

  lemma {:induction false} FlattenInjective(a: Groups, b: Groups)
    requires |a| == |b|
    requires forall i :: 0 <= i < |a| ==> |a[i]| == |b[i]|
    requires Flatten(a) == Flatten(b)
    ensures a == b
  {
    if a != [] {
      var m := |a| - 1;
      FlattenLength(a[..m]);
      FlattenLength(b[..m]);
      SumSizesEqual(a[..m], b[..m]);
      var fa := Flatten(a[..m]);
      var fb := Flatten(b[..m]);
      assert fa == Flatten(a)[..|fa|];
      assert fb == Flatten(b)[..|fb|];
      assert a[m] == Flatten(a)[|fa|..];
      assert b[m] == Flatten(b)[|fb|..];
      FlattenInjective(a[..m], b[..m]);
      assert a == a[..m] + [a[m]];
      assert b == b[..m] + [b[m]];
    }
  }

  /** The number of students in the groups. */
  function TotalSize(groups: Groups): nat {
    if groups == [] then 0 else TotalSize(groups[..|groups| - 1]) + |groups[|groups| - 1]|
  }

  lemma {:induction false} FlattenLength(groups: Groups)
    ensures |Flatten(groups)| == TotalSize(groups)
  {
    if groups != [] {
      FlattenLength(groups[..|groups| - 1]);
    }
  }

  lemma {:induction false} SumSizesEqual(a: Groups, b: Groups)
    requires |a| == |b|
    requires forall i :: 0 <= i < |a| ==> |a[i]| == |b[i]|
    ensures TotalSize(a) == TotalSize(b)
  {
    if a != [] {
      SumSizesEqual(a[..|a| - 1], b[..|b| - 1]);
    }
  }

  /** When the shuffle is a permutation of the selection, the groups hold exactly the selected students. */
  lemma BalancedSplitKeepsSelection(groups: Groups, shuffled: seq<Student>, selected: seq<Student>, size: nat)
    requires size > 0
    requires multiset(shuffled) == multiset(selected)
    requires IsBalancedSplit(groups, shuffled, size)
    ensures multiset(Flatten(groups)) == multiset(selected)
  {
  }

  // ---------------------------------------------------------------------------------
  // Moving a student between groups

  /** `a` is `b` with some of its elements left out, the rest kept in order. */
  predicate SubsequenceOf(a: seq<Student>, b: seq<Student>)
    decreases |b|
  {
    a == [] || (b != [] && ((a[0] == b[0] && SubsequenceOf(a[1..], b[1..])) || SubsequenceOf(a, b[1..])))
  }

  /** The group without the students whose id is `id` (the source filters by id): the others
      keep their order and their number of occurrences. */
  function RemoveById(group: seq<Student>, id: int): (r: seq<Student>)
    ensures forall s :: s in r <==> s in group && s.id != id
    ensures forall s :: multiset(r)[s] == if s.id == id then 0 else multiset(group)[s]
    ensures SubsequenceOf(r, group)
    ensures |r| <= |group|
  {
    if group == [] then []
    else
      var rest := RemoveById(group[1..], id);
      assert group == [group[0]] + group[1..];
      assert multiset(group) == multiset{group[0]} + multiset(group[1..]);
      if group[0].id == id then rest
      else
        var r := [group[0]] + rest;
        assert r[0] == group[0] && r[1..] == rest;
        assert multiset(r) == multiset{group[0]} + multiset(rest);
        r
  }

  /** A group in which `student` occurs once and no other student shares its id loses exactly that student. */
  lemma {:induction false} RemoveByIdUnique(group: seq<Student>, student: Student)
    requires multiset(group)[student] == 1
    requires forall s :: s in group && s.id == student.id ==> s == student
    ensures multiset(RemoveById(group, student.id)) == multiset(group) - multiset{student}
  {
    assert group == [group[0]] + group[1..];
    if group[0] == student {
      assert student !in group[1..];
      RemoveByIdAbsent(group[1..], student.id);
    } else {
      RemoveByIdUnique(group[1..], student);
    }
  }

  lemma {:induction false} RemoveByIdAbsent(group: seq<Student>, id: int)
    requires forall s :: s in group ==> s.id != id
    ensures RemoveById(group, id) == group
  {
    if group != [] {
      RemoveByIdAbsent(group[1..], id);
      assert group == [group[0]] + group[1..];
    }
  }

  /**
   * The drop of `student`, dragged from group `source`, on a droppable whose group
   * index is `target` (absent when the drop target is not a group card): when the
   * target is a different group the student leaves the source and joins the end of
   * the target.
   */
  function MoveStudent(groups: Groups, student: Student, source: nat, target: Option<nat>): (r: Groups)
    requires source < |groups|
    requires target.Some? ==> target.value < |groups|
    ensures |r| == |groups|
    ensures target.None? || target.value == source ==> r == groups
    ensures target.Some? && target.value != source ==>
      && r[source] == RemoveById(groups[source], student.id)
      && r[target.value] == groups[target.value] + [student]
      && forall k :: 0 <= k < |groups| && k != source && k != target.value ==> r[k] == groups[k]
  {
    if target.None? || target.value == source then groups
    else
      var removed := groups[source := RemoveById(groups[source], student.id)];
      removed[target.value := removed[target.value] + [student]]
  }

  /** Replacing one group changes the flattened multiset by exactly that group. */
  lemma {:induction false} FlattenUpdate(groups: Groups, k: nat, g: seq<Student>)
    requires k < |groups|
    ensures multiset(Flatten(groups[k := g])) == multiset(Flatten(groups)) - multiset(groups[k]) + multiset(g)
  {
    var m := |groups| - 1;
    var updated := groups[k := g];
    if k == m {
      assert updated[..m] == groups[..m];
    } else {
      var front := groups[..m];
      FlattenUpdate(front, k, g);
      assert updated[..m] == front[k := g];
      assert updated[m] == groups[m];
      assert front[k] == groups[k];
      FlattenContains(front, k);
      assert multiset(Flatten(groups)) == multiset(Flatten(front)) + multiset(groups[m]);
      assert multiset(Flatten(updated)) == multiset(Flatten(front[k := g])) + multiset(groups[m]);
      MultisetShift(multiset(Flatten(front)), multiset(groups[m]), multiset(groups[k]), multiset(g));
    }
  }

  lemma MultisetShift(a: multiset<Student>, last: multiset<Student>, old_: multiset<Student>, new_: multiset<Student>)
    requires old_ <= a
    ensures a - old_ + new_ + last == a + last - old_ + new_
  {
  }

  lemma {:induction false} FlattenContains(groups: Groups, k: nat)
    requires k < |groups|
    ensures multiset(groups[k]) <= multiset(Flatten(groups))
  {
    var m := |groups| - 1;
    if k < m {
      FlattenContains(groups[..m], k);
    }
  }

  /** Moving a student that occurs once in its source group (and whose id is unique there) keeps
      every student in exactly one place: nobody is lost or duplicated. */
  lemma MoveStudentKeepsStudents(groups: Groups, student: Student, source: nat, target: Option<nat>)
    requires source < |groups|
    requires target.Some? ==> target.value < |groups|
    requires multiset(groups[source])[student] == 1
    requires forall s :: s in groups[source] && s.id == student.id ==> s == student
    ensures multiset(Flatten(MoveStudent(groups, student, source, target))) == multiset(Flatten(groups))
  {
    if target.Some? && target.value != source {
      var t := target.value;
      var removed := groups[source := RemoveById(groups[source], student.id)];
      var moved := removed[t := removed[t] + [student]];
      assert MoveStudent(groups, student, source, target) == moved;
      RemovalTakesStudent(groups, student, source);
      AppendAddsStudent(removed, t, student);
      PutBack(multiset(Flatten(groups)), student);
    }
  }

  lemma PutBack(whole: multiset<Student>, student: Student)
    requires student in whole
    ensures whole - multiset{student} + multiset{student} == whole
  {
  }

  /** Filtering the student out of its group removes exactly one copy from the whole. */
  lemma RemovalTakesStudent(groups: Groups, student: Student, source: nat)
    requires source < |groups|
    requires multiset(groups[source])[student] == 1
    requires forall s :: s in groups[source] && s.id == student.id ==> s == student
    ensures var removed := groups[source := RemoveById(groups[source], student.id)];
      && student in multiset(Flatten(groups))
      && multiset(Flatten(removed)) == multiset(Flatten(groups)) - multiset{student}
  {
    var rem := RemoveById(groups[source], student.id);
    RemoveByIdUnique(groups[source], student);
    FlattenUpdate(groups, source, rem);
    FlattenContains(groups, source);
    MultisetSwap(multiset(Flatten(groups)), multiset(groups[source]), multiset(rem), student);
  }

  /** Appending the student to a group adds exactly one copy to the whole. */
  lemma AppendAddsStudent(groups: Groups, t: nat, student: Student)
    requires t < |groups|
    ensures multiset(Flatten(groups[t := groups[t] + [student]])) == multiset(Flatten(groups)) + multiset{student}
  {
    FlattenUpdate(groups, t, groups[t] + [student]);
    FlattenContains(groups, t);
    assert multiset(groups[t] + [student]) == multiset(groups[t]) + multiset{student};
  }

  /** Taking a group out of the whole and putting it back without one student removes that student. */
  lemma MultisetSwap(whole: multiset<Student>, group: multiset<Student>, rest: multiset<Student>, student: Student)
    requires group <= whole
    requires rest == group - multiset{student} && student in group
    ensures whole - group + rest == whole - multiset{student}
  {
  }

  // ---------------------------------------------------------------------------------
  // Selection and the size field

  /** Whether a student with this id is selected. */
  predicate IsSelected(selected: seq<Student>, id: int) {
    exists s :: s in selected && s.id == id
  }

  /** Choosing a roster entry: deselect it (by id) when it is selected, else append it. */
  function Toggle(selected: seq<Student>, student: Student): (r: seq<Student>)
    ensures !IsSelected(selected, student.id) ==> r == selected + [student]
    ensures IsSelected(selected, student.id) ==> r == RemoveById(selected, student.id)
    ensures IsSelected(r, student.id) <==> !IsSelected(selected, student.id)
    ensures forall s: Student :: s.id != student.id ==> (s in r <==> s in selected)
  {
    if IsSelected(selected, student.id) then RemoveById(selected, student.id)
    else
      assert student in selected + [student];
      selected + [student]
  }

  /** Choosing a roster entry twice leaves an unselected student unselected, with the selection as before. */
  lemma {:induction false} ToggleTwice(selected: seq<Student>, student: Student)
    requires !IsSelected(selected, student.id)
    ensures Toggle(Toggle(selected, student), student) == selected
  {
    var once := selected + [student];
    assert student in once;
    RemoveByIdAppended(selected, student);
  }

  lemma {:induction false} RemoveByIdAppended(selected: seq<Student>, student: Student)
    requires !IsSelected(selected, student.id)
    ensures RemoveById(selected + [student], student.id) == selected
  {
    if selected == [] {
      assert [student][1..] == [];
    } else {
      assert (selected + [student])[1..] == selected[1..] + [student];
      assert selected[0] in selected;
      RemoveByIdAppended(selected[1..], student);
    }
  }

  /** "Select all" selects the roster unless everything (by count) is already selected, which clears the selection. */
  function SelectAll(selected: seq<Student>, roster: seq<Student>): (r: seq<Student>)
    ensures |selected| == |roster| ==> r == []
    ensures |selected| != |roster| ==> r == roster
  {
    if IsAllSelected(selected, roster) then [] else roster
  }

  /** The select-all entry's check mark. */
  predicate IsAllSelected(selected: seq<Student>, roster: seq<Student>) { |selected| == |roster| }

  /** The select-all entry's partial mark. */
  predicate IsSomeSelected(selected: seq<Student>, roster: seq<Student>) {
    |selected| > 0 && |selected| < |roster|
  }

  /** The combo box label. */
  function SelectionLabel(selectedCount: nat, rosterCount: nat): (r: string)
    ensures selectedCount == 0 ==> r == "Sélectionner des utilisateurs..."
    ensures selectedCount > 0 && selectedCount == rosterCount ==> r == "Tous sélectionnés"
    ensures selectedCount > 0 && selectedCount != rosterCount ==>
      r == NatToString(selectedCount) + " sélectionné" + (if selectedCount > 1 then "s" else "")
  {
    if selectedCount > 0 then
      if selectedCount == rosterCount then "Tous sélectionnés"
      else NatToString(selectedCount) + " sélectionné" + (if selectedCount > 1 then "s" else "")
    else "Sélectionner des utilisateurs..."
  }

  /**
   * The select-all entry undoes its own check mark: from a full selection it leaves nothing
   * selected and the combo box prompting again; from any other selection it checks the mark
   * and the box reads "all selected" (for a non-empty roster).
   */
  lemma SelectAllMarks(selected: seq<Student>, roster: seq<Student>)
    ensures IsAllSelected(selected, roster) ==>
      && !IsSomeSelected(SelectAll(selected, roster), roster)
      && SelectionLabel(|SelectAll(selected, roster)|, |roster|) == "Sélectionner des utilisateurs..."
    ensures !IsAllSelected(selected, roster) ==>
      && IsAllSelected(SelectAll(selected, roster), roster)
      && !IsSomeSelected(SelectAll(selected, roster), roster)
      && (roster != [] ==> SelectionLabel(|SelectAll(selected, roster)|, |roster|) == "Tous sélectionnés")
  {
  }

  /**
   * The group size field's change handler: a positive `parseInt` becomes the size, an
   * empty field clears it, and anything else leaves the current size.
   */
  function ParseGroupSize(value: string, current: Option<nat>): (r: Option<nat>)
    ensures ParseInt(value).Some? && ParseInt(value).value > 0 ==> r == Some(ParseInt(value).value as nat)
    ensures (ParseInt(value).None? || ParseInt(value).value <= 0) && value == "" ==> r == None
    ensures (ParseInt(value).None? || ParseInt(value).value <= 0) && value != "" ==> r == current
    ensures r.Some? ==> r.value > 0 || r == current
  {
    var parsed := ParseInt(value);
    if parsed.Some? && parsed.value > 0 then Some(parsed.value as nat)
    else if value == "" then None
    else current
  }

  /** Typing a positive size sets exactly that size; emptying the field clears it. */
  lemma ParseGroupSizeTyped(n: nat, current: Option<nat>)
    requires n > 0
    ensures ParseGroupSize(IntToString(n), current) == Some(n)
    ensures ParseGroupSize("", current) == None
    ensures ParseGroupSize("0", current) == current
  {
    ParseIntToString(n);
    ParseIntEmpty();
    ParseIntToString(0);
  }

  // ---------------------------------------------------------------------------------
  // The tool

  class GroupMaker {
    /** The roster the users hook loaded. */
    const roster: seq<Student>
    var selected: seq<Student>
    var isCreated: bool
    var groupSize: Option<nat>
    var groups: Option<Groups>
    var activeStudent: Option<Student>

    ghost predicate Valid()
      reads this
    {
      groupSize.Some? ==> groupSize.value > 0
    }

    constructor (roster: seq<Student>)
      ensures Valid()
      ensures this.roster == roster && selected == [] && !isCreated
      ensures groupSize.None? && groups.None? && activeStudent.None?
    {
      this.roster := roster;
      selected := [];
      isCreated := false;
      groupSize := None;
      groups := None;
      activeStudent := None;
    }

    method ChooseStudent(student: Student)
      modifies this
      ensures selected == Toggle(old(selected), student)
      ensures isCreated == old(isCreated) && groupSize == old(groupSize)
      ensures groups == old(groups) && activeStudent == old(activeStudent)
    {
      selected := Toggle(selected, student);
    }

    method HandleSelectAll()
      modifies this
      ensures selected == SelectAll(old(selected), roster)
      ensures isCreated == old(isCreated) && groupSize == old(groupSize)
      ensures groups == old(groups) && activeStudent == old(activeStudent)
    {
      if |selected| == |roster| {
        selected := [];
      } else {
        selected := roster;
      }
    }

    method HandleGroupSize(value: string)
      requires Valid()
      modifies this
      ensures Valid()
      ensures groupSize == ParseGroupSize(value, old(groupSize))
      ensures selected == old(selected) && isCreated == old(isCreated)
      ensures groups == old(groups) && activeStudent == old(activeStudent)
    {
      groupSize := ParseGroupSize(value, groupSize);
    }

    /**
     * The create button: with a size and a non-empty selection, split the selection
     * (shuffled, a permutation of it, is the shuffle's output) and show the groups.
     */
    method HandleCreateClick(shuffled: seq<Student>)
      requires Valid()
      requires multiset(shuffled) == multiset(selected)
      modifies this
      ensures Valid()
      ensures old(groupSize).Some? && |selected| > 0 ==>
        && isCreated
        && groups.Some? && IsBalancedSplit(groups.value, shuffled, old(groupSize).value)
        && multiset(Flatten(groups.value)) == multiset(selected)
      ensures !(old(groupSize).Some? && |selected| > 0) ==> isCreated == old(isCreated) && groups == old(groups)
      ensures selected == old(selected) && groupSize == old(groupSize) && activeStudent == old(activeStudent)
    {
      if groupSize.Some? && |selected| > 0 {
        var created := CreateGroups(shuffled, groupSize.value);
        BalancedSplitKeepsSelection(created, shuffled, selected, groupSize.value);
        groups := Some(created);
        isCreated := true;
      }
    }

    /**
     * The reset button of the groups screen: it flips the screen back to the selection
     * and, with a size set, silently re-splits a fresh shuffle of the selection.
     */
    method HandleResetClick(shuffled: seq<Student>)
      requires Valid()
      requires multiset(shuffled) == multiset(selected)
      modifies this
      ensures Valid()
      ensures isCreated == !old(isCreated)
      ensures old(groupSize).Some? ==>
        groups.Some? && IsBalancedSplit(groups.value, shuffled, old(groupSize).value)
        && multiset(Flatten(groups.value)) == multiset(selected)
      ensures old(groupSize).None? ==> groups == old(groups)
      ensures selected == old(selected) && groupSize == old(groupSize) && activeStudent == old(activeStudent)
    {
      isCreated := !isCreated;
      if groupSize.Some? {
        var created := CreateGroups(shuffled, groupSize.value);
        BalancedSplitKeepsSelection(created, shuffled, selected, groupSize.value);
        groups := Some(created);
      }
    }

    method HandleDragStart(student: Option<Student>)
      modifies this
      ensures activeStudent == student
      ensures selected == old(selected) && isCreated == old(isCreated)
      ensures groupSize == old(groupSize) && groups == old(groups)
    {
      activeStudent := student;
    }

    /**
     * The drop of `student` from group `source`: `over` is absent when the drop is not
     * on a droppable, and its group index is absent when the droppable has none.
     */
    method HandleDragEnd(student: Student, source: nat, over: Option<Option<nat>>)
      requires groups.Some? ==> source < |groups.value|
      requires groups.Some? && over.Some? && over.value.Some? ==> over.value.value < |groups.value|
      modifies this
      ensures activeStudent.None?
      ensures over.None? || old(groups).None? ==> groups == old(groups)
      ensures over.Some? && old(groups).Some? ==> groups == Some(MoveStudent(old(groups).value, student, source, over.value))
      ensures selected == old(selected) && isCreated == old(isCreated) && groupSize == old(groupSize)
    {
      activeStudent := None;
      if over.None? || groups.None? {
        return;
      }
      groups := Some(MoveStudent(groups.value, student, source, over.value));
    }
  }
}
