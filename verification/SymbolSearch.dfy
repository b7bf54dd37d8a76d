/** Bounded edit distance of the symbol search, proved against the least number of
    single-character edits that turn one text into the other. */
module SymbolSearch {

  /** The text b is a with exactly one character inserted, deleted or replaced. */
  ghost predicate OneEdit<T(!new)>(a: seq<T>, b: seq<T>) {
    || Inserted(a, b)
    || Inserted(b, a)
    || Replaced(a, b)
  }

  ghost predicate Inserted<T(!new)>(a: seq<T>, b: seq<T>) {
    exists p, x, s :: InsertedAt(a, b, p, x, s)
  }

  ghost predicate InsertedAt<T>(a: seq<T>, b: seq<T>, p: seq<T>, x: T, s: seq<T>) {
    a == p + s && b == p + [x] + s
  }

  ghost predicate Replaced<T(!new)>(a: seq<T>, b: seq<T>) {
    exists p, x, y, s :: ReplacedAt(a, b, p, x, y, s)
  }

  ghost predicate ReplacedAt<T>(a: seq<T>, b: seq<T>, p: seq<T>, x: T, y: T, s: seq<T>) {
    a == p + [x] + s && b == p + [y] + s && x != y
  }

  /** b is reached from a by exactly n single-character edits. */
  ghost predicate EditPath<T(!new)>(a: seq<T>, b: seq<T>, n: nat)
    decreases n
  {
    if n == 0 then a == b else exists m :: EditPath(a, m, n - 1) && OneEdit(m, b)
  }

  function Min(x: int, y: int): int {
    if x <= y then x else y
  }

  function Front<T>(a: seq<T>): seq<T>
    requires a != []
  {
    a[..|a| - 1]
  }

  function Last<T>(a: seq<T>): T
    requires a != []
  {
    a[|a| - 1]
  }

  /** The Levenshtein recurrence. */
  function Lev<T(==)>(a: seq<T>, b: seq<T>): nat
    decreases |a| + |b|
  {
    if a == [] then |b|
    else if b == [] then |a|
    else
      var substitution := if Last(a) == Last(b) then 0 else 1;
      Min(Min(Lev(Front(a), b) + 1, Lev(a, Front(b)) + 1), Lev(Front(a), Front(b)) + substitution)
  }

  lemma {:induction false} LevSymmetric<T>(a: seq<T>, b: seq<T>)
    ensures Lev(a, b) == Lev(b, a)
    decreases |a| + |b|
  {
    if a != [] && b != [] {
      LevSymmetric(Front(a), b);
      LevSymmetric(a, Front(b));
      LevSymmetric(Front(a), Front(b));
    }
  }

  lemma {:induction false} LevLengthGap<T>(a: seq<T>, b: seq<T>)
    ensures |a| - |b| <= Lev(a, b) && |b| - |a| <= Lev(a, b)
    decreases |a| + |b|
  {
    if a != [] && b != [] {
      LevLengthGap(Front(a), b);
      LevLengthGap(a, Front(b));
      LevLengthGap(Front(a), Front(b));
    }
  }

  lemma {:induction false} LevZero<T>(a: seq<T>, b: seq<T>)
    ensures Lev(a, b) == 0 <==> a == b
    decreases |a| + |b|
  {
    if a != [] && b != [] {
      LevZero(Front(a), Front(b));
      FrontAndLast(a, b);
    }
  }

  lemma FrontAndLast<T>(a: seq<T>, b: seq<T>)
    requires a != [] && b != []
    ensures a == b <==> Front(a) == Front(b) && Last(a) == Last(b)
  {
    assert a == Front(a) + [Last(a)] && b == Front(b) + [Last(b)];
  }

  lemma FrontOfInsert<T>(p: seq<T>, x: seq<T>, s: seq<T>)
    requires s != []
    ensures Front(p + x + s) == p + x + Front(s)
    ensures Front(p + s) == p + Front(s)
    ensures Last(p + x + s) == Last(p + s) == Last(s)
  {
  }

  /** Inserting one character moves the recurrence by at most one. */
  lemma {:induction false} LevInsert<T>(a: seq<T>, p: seq<T>, x: T, s: seq<T>)
    ensures Lev(a, p + [x] + s) <= Lev(a, p + s) + 1
    ensures Lev(a, p + s) <= Lev(a, p + [x] + s) + 1
    decreases |a| + |s|
  {
    var b, c := p + s, p + [x] + s;
    if a == [] {
    } else if s == [] {
      assert p + s == p && c == p + [x] && Front(c) == p;
      LevInsert(Front(a), p, x, s);
    } else {
      FrontOfInsert(p, [x], s);
      LevInsert(Front(a), p, x, s);
      LevInsert(a, p, x, Front(s));
      LevInsert(Front(a), p, x, Front(s));
    }
  }

  /** Replacing one character moves the recurrence by at most one. */
  lemma {:induction false} LevReplace<T>(a: seq<T>, p: seq<T>, x: T, y: T, s: seq<T>)
    ensures Lev(a, p + [y] + s) <= Lev(a, p + [x] + s) + 1
    decreases |a| + |s|
  {
    var b, c := p + [x] + s, p + [y] + s;
    if a == [] {
    } else if s == [] {
      assert b == p + [x] && Front(b) == p && c == p + [y] && Front(c) == p;
      LevReplace(Front(a), p, x, y, s);
    } else {
      FrontOfInsert(p, [x], s);
      FrontOfInsert(p, [y], s);
      LevReplace(Front(a), p, x, y, s);
      LevReplace(a, p, x, y, Front(s));
      LevReplace(Front(a), p, x, y, Front(s));
    }
  }

  lemma LevOneEdit<T(!new)>(a: seq<T>, m: seq<T>, b: seq<T>)
    requires OneEdit(m, b)
    ensures Lev(a, b) <= Lev(a, m) + 1
  {
    if Inserted(m, b) {
      var p, x, s :| InsertedAt(m, b, p, x, s);
      LevInsert(a, p, x, s);
    } else if Inserted(b, m) {
      var p, x, s :| InsertedAt(b, m, p, x, s);
      LevInsert(a, p, x, s);
    } else {
      var p, x, y, s :| ReplacedAt(m, b, p, x, y, s);
      LevReplace(a, p, x, y, s);
    }
  }

  /** No chain of single edits is shorter than the recurrence says. */
  lemma {:induction false} LevIsLowerBound<T(!new)>(a: seq<T>, b: seq<T>, n: nat)
    requires EditPath(a, b, n)
    ensures Lev(a, b) <= n
    decreases n
  {
    if n == 0 {
      LevZero(a, b);
    } else {
      var m :| EditPath(a, m, n - 1) && OneEdit(m, b);
      LevIsLowerBound(a, m, n - 1);
      LevOneEdit(a, m, b);
    }
  }

  lemma OneEditAppend<T(!new)>(a: seq<T>, b: seq<T>, z: T)
    requires OneEdit(a, b)
    ensures OneEdit(a + [z], b + [z])
  {
    if Inserted(a, b) {
      var p, x, s :| InsertedAt(a, b, p, x, s);
      assert InsertedAt(a + [z], b + [z], p, x, s + [z]);
    } else if Inserted(b, a) {
      var p, x, s :| InsertedAt(b, a, p, x, s);
      assert InsertedAt(b + [z], a + [z], p, x, s + [z]);
    } else {
      var p, x, y, s :| ReplacedAt(a, b, p, x, y, s);
      assert ReplacedAt(a + [z], b + [z], p, x, y, s + [z]);
    }
  }

  lemma {:induction false} EditPathAppend<T(!new)>(a: seq<T>, b: seq<T>, n: nat, z: T)
    requires EditPath(a, b, n)
    ensures EditPath(a + [z], b + [z], n)
    decreases n
  {
    if n > 0 {
      var m :| EditPath(a, m, n - 1) && OneEdit(m, b);
      EditPathAppend(a, m, n - 1, z);
      OneEditAppend(m, b, z);
      assert EditPath(a + [z], m + [z], n - 1) && OneEdit(m + [z], b + [z]);
    }
  }

  /** A path may begin with an edit as well as end with one. */
  lemma {:induction false} EditPathPrepend<T(!new)>(a: seq<T>, m: seq<T>, b: seq<T>, n: nat)
    requires OneEdit(a, m) && EditPath(m, b, n)
    ensures EditPath(a, b, n + 1)
    decreases n
  {
    if n == 0 {
      assert EditPath(a, a, 0);
    } else {
      var k :| EditPath(m, k, n - 1) && OneEdit(k, b);
      EditPathPrepend(a, m, k, n - 1);
    }
  }

  lemma EditPathExtend<T(!new)>(a: seq<T>, m: seq<T>, b: seq<T>, n: nat)
    requires EditPath(a, m, n) && OneEdit(m, b)
    ensures EditPath(a, b, n + 1)
  {
    assert EditPath(a, m, (n + 1) - 1);
  }

  lemma LastIsOneEdit<T(!new)>(a: seq<T>)
    requires a != []
    ensures OneEdit(Front(a), a) && OneEdit(a, Front(a))
  {
    assert InsertedAt(Front(a), a, Front(a), Last(a), []);
  }

  lemma ReplaceLast<T(!new)>(p: seq<T>, x: T, y: T)
    requires x != y
    ensures OneEdit(p + [x], p + [y])
  {
    assert ReplacedAt(p + [x], p + [y], p, x, y, []);
  }

  /** Edits of the fronts, and of the last elements if they differ. */
  lemma ReachedByLast<T(!new)>(a: seq<T>, b: seq<T>, k: nat)
    requires a != [] && b != [] && EditPath(Front(a), Front(b), k)
    ensures EditPath(a, b, k + if Last(a) == Last(b) then 0 else 1)
  {
    hide EditPath, OneEdit;
    EditPathAppend(Front(a), Front(b), k, Last(a));
    assert a == Front(a) + [Last(a)] && b == Front(b) + [Last(b)];
    if Last(a) != Last(b) {
      ReplaceLast(Front(b), Last(a), Last(b));
      EditPathExtend(a, Front(b) + [Last(a)], b, k);
    }
  }

  /** Where the recurrence takes its value from. */
  lemma LevStep<T>(a: seq<T>, b: seq<T>)
    ensures || (a == [] && b == [] && Lev(a, b) == 0)
            || (a != [] && Lev(a, b) == Lev(Front(a), b) + 1)
            || (b != [] && Lev(a, b) == Lev(a, Front(b)) + 1)
            || (a != [] && b != []
                && Lev(a, b) == Lev(Front(a), Front(b)) + if Last(a) == Last(b) then 0 else 1)
  {
  }

  lemma NoEdits<T(!new)>(a: seq<T>)
    ensures EditPath(a, a, 0)
  {
  }

  /** A chain of exactly as many edits as the recurrence says exists. */
  lemma {:induction false} LevIsReached<T(!new)>(a: seq<T>, b: seq<T>)
    ensures EditPath(a, b, Lev(a, b))
    decreases |a| + |b|
  {
    hide EditPath, OneEdit, Lev;
    LevStep(a, b);
    var n := Lev(a, b);
    if a == [] && b == [] {
      NoEdits(a);
    } else if a != [] && n == Lev(Front(a), b) + 1 {
      LevIsReached(Front(a), b);
      LastIsOneEdit(a);
      EditPathPrepend(a, Front(a), b, n - 1);
    } else if b != [] && n == Lev(a, Front(b)) + 1 {
      LevIsReached(a, Front(b));
      LastIsOneEdit(b);
      EditPathExtend(a, Front(b), b, n - 1);
    } else {
      LevIsReached(Front(a), Front(b));
      ReachedByLast(a, b, Lev(Front(a), Front(b)));
    }
  }

  /** The recurrence is the least number of single-character edits. */
  lemma LevIsLeastEdits<T(!new)>(a: seq<T>, b: seq<T>)
    ensures EditPath(a, b, Lev(a, b))
    ensures forall n: nat :: EditPath(a, b, n) ==> Lev(a, b) <= n
  {
    LevIsReached(a, b);
    forall n: nat | EditPath(a, b, n)
      ensures Lev(a, b) <= n
    {
      LevIsLowerBound(a, b, n);
    }
  }

  /** One entry of the table: the distance of two prefixes. */
  ghost function Cell<T>(a: seq<T>, b: seq<T>, i: nat, j: nat): nat
    requires i <= |a| && j <= |b|
  {
    Lev(a[..i], b[..j])
  }

  lemma CellEdges<T>(a: seq<T>, b: seq<T>, i: nat, j: nat)
    requires i <= |a| && j <= |b|
    ensures Cell(a, b, i, 0) == i && Cell(a, b, 0, j) == j
  {
  }

  lemma CellStep<T>(a: seq<T>, b: seq<T>, i: nat, j: nat)
    requires 0 < i <= |a| && 0 < j <= |b|
    ensures Cell(a, b, i, j) ==
            Min(Min(Cell(a, b, i - 1, j) + 1, Cell(a, b, i, j - 1) + 1),
                Cell(a, b, i - 1, j - 1) + if a[i - 1] == b[j - 1] then 0 else 1)
  {
    var x, y := a[..i], b[..j];
    assert Front(x) == a[..i - 1] && Front(y) == b[..j - 1];
    assert Last(x) == a[i - 1] && Last(y) == b[j - 1];
  }

  /** Some entry of the row above is no larger than a given entry. */
  lemma {:induction false} RowAbove<T>(a: seq<T>, b: seq<T>, i: nat, j: nat) returns (column: nat)
    requires 0 < i <= |a| && j <= |b|
    ensures column <= |b| && Cell(a, b, i - 1, column) <= Cell(a, b, i, j)
    decreases j
  {
    if j == 0 {
      column := 0;
      CellEdges(a, b, i, 0);
      CellEdges(a, b, i - 1, 0);
    } else {
      CellStep(a, b, i, j);
      if Cell(a, b, i, j) == Cell(a, b, i, j - 1) + 1 {
        column := RowAbove(a, b, i, j - 1);
      } else {
        column := if Cell(a, b, i, j) == Cell(a, b, i - 1, j) + 1 then j else j - 1;
      }
    }
  }

  /** Every row of the table holds an entry no larger than the final distance. */
  lemma {:induction false} RowBoundsDistance<T>(a: seq<T>, b: seq<T>, row: nat) returns (column: nat)
    requires row <= |a|
    ensures column <= |b| && Cell(a, b, row, column) <= Lev(a, b)
    decreases |a| - row
  {
    if row == |a| {
      column := |b|;
      assert a[..row] == a && b[..column] == b;
    } else {
      var below := RowBoundsDistance(a, b, row + 1);
      column := RowAbove(a, b, row + 1, below);
    }
  }

  /** The positions at which a single edit may show. */
  ghost predicate AgreeExceptAt<T>(a: seq<T>, b: seq<T>, k: nat) {
    && |a| == |b|
    && forall j :: 0 <= j < |a| && j != k ==> a[j] == b[j]
  }

  ghost predicate AgreeAround<T>(a: seq<T>, b: seq<T>, k: nat) {
    && |a| + 1 == |b|
    && (forall j :: 0 <= j < |a| && j < k ==> a[j] == b[j])
    && (forall j :: 0 <= j < |a| && k <= j ==> a[j] == b[j + 1])
  }

  lemma OneEditShape<T(!new)>(a: seq<T>, b: seq<T>) returns (k: nat)
    requires OneEdit(a, b)
    ensures a != b
    ensures AgreeExceptAt(a, b, k) || AgreeAround(a, b, k) || AgreeAround(b, a, k)
  {
    if Inserted(a, b) {
      var p, x, s :| InsertedAt(a, b, p, x, s);
      k := |p|;
    } else if Inserted(b, a) {
      var p, x, s :| InsertedAt(b, a, p, x, s);
      k := |p|;
    } else {
      var p, x, y, s :| ReplacedAt(a, b, p, x, y, s);
      k := |p|;
      assert a[k] == x && b[k] == y;
    }
  }

  /** Distance one means one edit: the fact behind the two-pointer path. */
  lemma LevOneIsOneEdit<T(!new)>(a: seq<T>, b: seq<T>)
    ensures Lev(a, b) == 1 <==> OneEdit(a, b)
  {
    if Lev(a, b) == 1 {
      LevIsReached(a, b);
      var m :| EditPath(a, m, 0) && OneEdit(m, b);
    }
    if OneEdit(a, b) {
      assert EditPath(a, a, 0);
      assert EditPath(a, b, 1);
      LevIsLowerBound(a, b, 1);
      LevZero(a, b);
      var k := OneEditShape(a, b);
    }
  }

  /** Two mismatches at the same positions of equally long texts, or one mismatch before and one
      after the shift of a text one longer, rule out a single edit. */
  lemma TwoMismatches<T(!new)>(a: seq<T>, b: seq<T>, first: nat, second: nat)
    requires first < |a| && first < |b| && a[first] != b[first]
    requires |a| == |b| || |a| + 1 == |b|
    requires if |a| == |b| then first < second < |a| && a[second] != b[second]
             else first <= second < |a| && a[second] != b[second + 1]
    ensures Lev(a, b) >= 2
  {
    LevZero(a, b);
    LevOneIsOneEdit(a, b);
    if OneEdit(a, b) {
      var k := OneEditShape(a, b);
      assert false;
    }
  }

  /** After one mismatch at `first`, everything before it agrees and so does everything since,
      the longer text being read `shift` characters ahead. */
  ghost predicate OneMismatchSoFar<T>(a: seq<T>, b: seq<T>, first: nat, shift: nat, i: nat) {
    && first < |a| && first < |b| && a[first] != b[first]
    && |b| == |a| + shift && shift <= 1 && first + 1 <= i + shift && i <= |a|
    && (forall k :: 0 <= k < first ==> a[k] == b[k])
    && (forall k :: first + 1 - shift <= k < i ==> a[k] == b[k + shift])
  }

  lemma MismatchIsOneEdit<T(!new)>(a: seq<T>, b: seq<T>, first: nat, shift: nat)
    requires OneMismatchSoFar(a, b, first, shift, |a|)
    ensures OneEdit(a, b)
  {
    var p := a[..first];
    if shift == 0 {
      var s := a[first + 1..];
      assert a == p + [a[first]] + s;
      assert b == p + [b[first]] + s;
      assert ReplacedAt(a, b, p, a[first], b[first], s);
    } else {
      var s := a[first..];
      assert a == p + s;
      assert b == p + [b[first]] + s;
      assert InsertedAt(a, b, p, b[first], s);
    }
  }

  lemma ProperPrefixIsOneEdit<T(!new)>(a: seq<T>, b: seq<T>)
    requires |b| == |a| + 1 && forall k :: 0 <= k < |a| ==> a[k] == b[k]
    ensures OneEdit(a, b)
  {
    assert b == a + [b[|a|]] + [];
    assert InsertedAt(a, b, a, b[|a|], []);
  }

  /** The two-pointer path for a bound of one, with the shorter text on the left. */
  method AtMostOneEdit<T(==, !new)>(left: seq<T>, right: seq<T>) returns (edits: nat)
    requires left != right && |left| <= |right| <= |left| + 1
    ensures edits == Min(Lev(left, right), 2)
  {
    var leftIndex, rightIndex := 0, 0;
    ghost var first, shift := 0, |right| - |left|;
    edits := 0;
    while leftIndex < |left| && rightIndex < |right|
      invariant leftIndex <= |left| && rightIndex <= |right| && edits <= 1
      invariant edits == 0 ==> leftIndex == rightIndex
                               && forall k :: 0 <= k < leftIndex ==> left[k] == right[k]
      invariant edits == 1 ==> rightIndex == leftIndex + shift
                               && OneMismatchSoFar(left, right, first, shift, leftIndex)
      decreases |right| - rightIndex
    {
      if left[leftIndex] == right[rightIndex] {
        leftIndex, rightIndex := leftIndex + 1, rightIndex + 1;
        continue;
      }
      if edits == 1 {
        TwoMismatches(left, right, first, leftIndex);
        return 2;
      }
      edits := 1;
      first := leftIndex;
      if |left| == |right| {
        leftIndex := leftIndex + 1;
      }
      rightIndex := rightIndex + 1;
    }
    LevOneIsOneEdit(left, right);
    if edits == 1 {
      MismatchIsOneEdit(left, right, first, shift);
    } else {
      assert shift == 1;
      ProperPrefixIsOneEdit(left, right);
    }
    if leftIndex < |left| || rightIndex < |right| {
      edits := edits + 1;
    }
  }

  /** The first n entries of a table row are distances of prefixes. */
  ghost predicate HoldsRow<T>(entries: seq<int>, a: seq<T>, b: seq<T>, i: nat, n: nat) {
    && i <= |a| && n <= |b| + 1 && n <= |entries|
    && forall j :: 0 <= j < n ==> entries[j] == Cell(a, b, i, j)
  }

  lemma HoldsNextCell<T>(previous: seq<int>, current: seq<int>, a: seq<T>, b: seq<T>, i: nat, j: nat)
    requires 0 < i <= |a| && 0 < j <= |b| && j < |current|
    requires HoldsRow(previous, a, b, i - 1, |b| + 1)
    requires HoldsRow(current, a, b, i, j)
    requires current[j] == Min(Min(previous[j] + 1, current[j - 1] + 1),
                               previous[j - 1] + if a[i - 1] == b[j - 1] then 0 else 1)
    ensures HoldsRow(current, a, b, i, j + 1)
  {
    CellStep(a, b, i, j);
  }

  lemma RowAboveBound<T>(entries: seq<int>, a: seq<T>, b: seq<T>, i: nat, bound: int)
    requires HoldsRow(entries, a, b, i, |b| + 1)
    requires forall j :: 0 <= j <= |b| ==> entries[j] > bound
    ensures Lev(a, b) > bound
  {
    var least := RowBoundsDistance(a, b, i);
    assert entries[least] == Cell(a, b, i, least);
  }

  lemma RowEnds<T>(entries: seq<int>, a: seq<T>, b: seq<T>)
    requires HoldsRow(entries, a, b, |a|, |b| + 1)
    ensures entries[|b|] == Lev(a, b)
  {
    assert a[..|a|] == a && b[..|b|] == b;
  }

  /** The two-row table for any other bound. */
  method TableDistance<T(==)>(left: seq<T>, right: seq<T>, maximumDistance: nat) returns (distance: nat)
    ensures distance == Min(Lev(left, right), maximumDistance + 1)
  {
    var previous := new int[|right| + 1];
    var current := new int[|right| + 1];
    var column := 0;
    while column <= |right|
      invariant 0 <= column <= |right| + 1
      invariant HoldsRow(previous[..], left, right, 0, column)
    {
      previous[column] := column;
      CellEdges(left, right, 0, column);
      column := column + 1;
    }
    var row := 1;
    while row <= |left|
      invariant 1 <= row <= |left| + 1
      invariant previous != current && previous.Length == current.Length == |right| + 1
      invariant fresh(previous) && fresh(current)
      invariant HoldsRow(previous[..], left, right, row - 1, |right| + 1)
    {
      current[0] := row;
      CellEdges(left, right, row, 0);
      var rowMinimum := current[0];
      column := 1;
      while column <= |right|
        invariant 1 <= column <= |right| + 1
        invariant HoldsRow(previous[..], left, right, row - 1, |right| + 1)
        invariant HoldsRow(current[..], left, right, row, column)
        invariant forall j :: 0 <= j < column ==> rowMinimum <= current[j]
      {
        var substitutionCost := if left[row - 1] == right[column - 1] then 0 else 1;
        current[column] := Min(Min(previous[column] + 1, current[column - 1] + 1),
                               previous[column - 1] + substitutionCost);
        rowMinimum := Min(rowMinimum, current[column]);
        HoldsNextCell(previous[..], current[..], left, right, row, column);
        column := column + 1;
      }
      if rowMinimum > maximumDistance {
        RowAboveBound(current[..], left, right, row, maximumDistance);
        return maximumDistance + 1;
      }
      previous, current := current, previous;
      row := row + 1;
    }
    RowEnds(previous[..], left, right);
    distance := if previous[|right|] <= maximumDistance then previous[|right|] else maximumDistance + 1;
  }

  /** The distance, capped one above the bound. */
  method BoundedEditDistance<T(==, !new)>(a: seq<T>, b: seq<T>, maximumDistance: int) returns (distance: int)
    ensures maximumDistance < 0 ==> distance == maximumDistance + 1
    ensures maximumDistance >= 0 ==> distance == Min(Lev(a, b), maximumDistance + 1)
  {
    if maximumDistance < 0 {
      return maximumDistance + 1;
    }
    LevZero(a, b);
    LevLengthGap(a, b);
    if a == b {
      return 0;
    }
    var lengthDifference := if |a| >= |b| then |a| - |b| else |b| - |a|;
    if lengthDifference > maximumDistance {
      return maximumDistance + 1;
    }
    if a == [] {
      return if |b| <= maximumDistance then |b| else maximumDistance + 1;
    }
    if b == [] {
      return if |a| <= maximumDistance then |a| else maximumDistance + 1;
    }
    LevSymmetric(a, b);
    if maximumDistance == 1 {
      if |a| > |b| {
        distance := AtMostOneEdit(b, a);
      } else {
        distance := AtMostOneEdit(a, b);
      }
    } else if |b| > |a| {
      distance := TableDistance(b, a, maximumDistance);
    } else {
      distance := TableDistance(a, b, maximumDistance);
    }
  }
}
