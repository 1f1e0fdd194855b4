/** The seeded choices of the generator: which secret files, and at which offsets. Both
    nodes replay them from the same seed. */
module Selection {
  import opened Arith
  import opened Sequences
  import opened Wrappers

  /** rand() after srand: the values it returns while this message is processed. */
  class Rand {
    const stream: seq<nat>
    var pos: nat

    ghost predicate Valid()
      reads this
    {
      pos <= |stream|
    }

    ghost function Rest(): seq<nat>
      reads this
      requires Valid()
    {
      stream[pos..]
    }

    constructor (stream: seq<nat>)
      ensures Valid() && this.stream == stream && Rest() == stream
    {
      this.stream := stream;
      pos := 0;
    }

    /** None stands for a generator that has not gone on to the next draw. */
    method Next() returns (v: Option<nat>)
      requires Valid()
      modifies this`pos
      ensures Valid()
      ensures old(Rest()) == [] ==> v == None && pos == old(pos)
      ensures old(Rest()) != [] ==> v == Some(old(Rest())[0]) && Rest() == old(Rest())[1..]
    {
      if pos == |stream| {
        return None;
      }
      v := Some(stream[pos]);
      pos := pos + 1;
    }
  }

  // ----- drawing distinct positions

  function Residues(draws: seq<nat>, size: nat): (r: seq<nat>)
    requires size > 0
    ensures |r| == |draws| && forall i :: 0 <= i < |r| ==> r[i] < size
  {
    seq(|draws|, i requires 0 <= i < |draws| => draws[i] % size)
  }

  /** The positions known so far followed by the new ones in order of first appearance. */
  function FirstSeen(have: seq<nat>, r: seq<nat>): seq<nat>
    decreases |r|
  {
    if r == [] then have else FirstSeen(if r[0] in have then have else have + [r[0]], r[1..])
  }

  /** The rejection loop on the residues drawn: the positions reached and the number of draws
      used, None while it is still rejecting. */
  function Pick(r: seq<nat>, have: seq<nat>, want: nat): Option<(seq<nat>, nat)>
    decreases |r|
  {
    if |have| >= want then Some((have, 0))
    else if r == [] then None
    else Plus(Pick(r[1..], if r[0] in have then have else have + [r[0]], want), 1)
  }

  function Plus(r: Option<(seq<nat>, nat)>, n: nat): Option<(seq<nat>, nat)> {
    match r
    case None => None
    case Some((ps, c)) => Some((ps, c + n))
  }

  lemma {:induction false} FirstSeenIsSet(have: seq<nat>, r: seq<nat>)
    requires Distinct(have)
    ensures Distinct(FirstSeen(have, r)) && have <= FirstSeen(have, r)
    ensures forall x :: x in FirstSeen(have, r) <==> x in have || x in r
    decreases |r|
  {
    if r != [] {
      var next := if r[0] in have then have else have + [r[0]];
      FirstSeenIsSet(next, r[1..]);
      assert forall x :: x in r <==> x == r[0] || x in r[1..];
      assert forall x :: x in next <==> x in have || x == r[0];
    }
  }

  /** What the loop returns: the first want distinct residues, using no draw more. */
  lemma {:induction false} PickIsFirstSeen(r: seq<nat>, have: seq<nat>, want: nat)
    requires |have| <= want
    ensures match Pick(r, have, want)
      case None => |FirstSeen(have, r)| < want
      case Some((ps, c)) => c <= |r| && |ps| == want && ps == FirstSeen(have, r[..c])
                            && (|have| < want ==> c > 0 && |FirstSeen(have, r[..c - 1])| < want)
    decreases |r|
  {
    if |have| < want && r != [] {
      var next := if r[0] in have then have else have + [r[0]];
      PickIsFirstSeen(r[1..], next, want);
      match Pick(r[1..], next, want) {
        case None =>
        case Some((ps, c)) =>
          assert r[..c + 1][1..] == r[1..][..c];
          if |next| < want {
            assert r[..c][1..] == r[1..][..c - 1];
          }
      }
    }
  }

  /** ks are the draws at which a position of ps comes up for the first time, in order, and
      every draw gives a position of ps. */
  predicate FirstValues(r: seq<nat>, ps: seq<nat>, ks: seq<nat>) {
    && |ks| == |ps|
    && (forall j :: 0 <= j < |ks| ==> ks[j] < |r| && r[ks[j]] == ps[j])
    && (forall i, j :: 0 <= i < j < |ks| ==> ks[i] < ks[j])
    && (forall j, m :: 0 <= j < |ks| && 0 <= m < ks[j] ==> r[m] != ps[j])
    && (forall m :: 0 <= m < |r| ==> r[m] in ps)
  }

  lemma {:induction false} FirstSeenSnoc(have: seq<nat>, r: seq<nat>, x: nat)
    ensures var seen := FirstSeen(have, r);
            FirstSeen(have, r + [x]) == if x in seen then seen else seen + [x]
    decreases |r|
  {
    if r != [] {
      assert (r + [x])[1..] == r[1..] + [x];
      FirstSeenSnoc(if r[0] in have then have else have + [r[0]], r[1..], x);
    } else {
      assert [x][1..] == [];
    }
  }

  lemma {:induction false} FirstSeenPositions(r: seq<nat>) returns (ks: seq<nat>)
    ensures FirstValues(r, FirstSeen([], r), ks)
  {
    if r == [] {
      ks := [];
    } else {
      var front, last := r[..|r| - 1], r[|r| - 1];
      var before := FirstSeenPositions(front);
      ks := OneMorePosition(front, last, before);
      assert r == front + [last];
    }
  }

  lemma OneMorePosition(r: seq<nat>, x: nat, ks: seq<nat>) returns (longer: seq<nat>)
    requires FirstValues(r, FirstSeen([], r), ks)
    ensures FirstValues(r + [x], FirstSeen([], r + [x]), longer)
  {
    FirstSeenSnoc([], r, x);
    longer := OneMoreValue(r, x, FirstSeen([], r), ks);
  }

  lemma OneMoreValue(r: seq<nat>, x: nat, ps: seq<nat>, ks: seq<nat>) returns (longer: seq<nat>)
    requires FirstValues(r, ps, ks)
    ensures FirstValues(r + [x], if x in ps then ps else ps + [x], longer)
    ensures x !in ps ==> longer == ks + [|r|]
  {
    longer := if x in ps then ks else ks + [|r|];
  }

  /** The draws at which the loop takes a position; the last of them ends the loop. */
  lemma PickPositions(r: seq<nat>, want: nat) returns (ks: seq<nat>)
    requires Pick(r, [], want).Some?
    ensures var (ps, c) := Pick(r, [], want).value;
      c <= |r| && |ps| == want && FirstValues(r[..c], ps, ks) && (c > 0 ==> ks != [] && ks[|ks| - 1] == c - 1)
  {
    PickIsFirstSeen(r, [], want);
    var (ps, c) := Pick(r, [], want).value;
    ks := FirstSeenPositions(r[..c]);
    if want == 0 {
      assert c == 0;
    } else {
      assert r[..c][..c - 1] == r[..c - 1];
      LastIsNew(r[..c], ks);
    }
  }

  lemma LastIsNew(r: seq<nat>, ks: seq<nat>)
    requires r != [] && FirstValues(r, FirstSeen([], r), ks)
    requires |FirstSeen([], r[..|r| - 1])| < |FirstSeen([], r)|
    ensures ks != [] && ks[|ks| - 1] == |r| - 1
  {
    var n := |r| - 1;
    var seen := FirstSeen([], r[..n]);
    FirstSeenSnoc([], r[..n], r[n]);
    assert r == r[..n] + [r[n]];
    assert FirstSeen([], r) == seen + [r[n]] && r[n] !in seen;
    FirstSeenIsSet([], r[..n]);
    assert r[ks[|ks| - 1]] == r[n];
    InFront(r, ks[|ks| - 1]);
  }

  lemma InFront(r: seq<nat>, k: nat)
    requires k < |r|
    ensures k < |r| - 1 ==> r[k] in r[..|r| - 1]
  {
    if k < |r| - 1 {
      assert r[..|r| - 1][k] == r[k];
    }
  }

  function SetOf(s: seq<nat>): set<nat> {
    set x | x in s
  }

  lemma {:induction false} DistinctIsSet(s: seq<nat>)
    requires Distinct(s)
    ensures |SetOf(s)| == |s|
  {
    if s != [] {
      var n := |s| - 1;
      DistinctIsSet(s[..n]);
      assert s[n] !in s[..n];
      assert SetOf(s) == SetOf(s[..n]) + {s[n]} by {
        assert s == s[..n] + [s[n]];
      }
    }
  }

  lemma {:induction false} BelowCount(s: set<nat>, size: nat)
    requires forall x :: x in s ==> x < size
    ensures |s| <= size
  {
    if size > 0 {
      BelowCount(s - {size - 1}, size - 1);
    } else {
      assert s == {};
    }
  }

  /** The loop finishes exactly when enough different residues are ever drawn. Its result is
      then duplicate-free and in range. */
  lemma PickFinishesIff(draws: seq<nat>, size: nat, want: nat)
    requires size > 0
    ensures Pick(Residues(draws, size), [], want).Some? <==> |SetOf(Residues(draws, size))| >= want
    ensures Pick(Residues(draws, size), [], want).Some? ==>
      var (ps, c) := Pick(Residues(draws, size), [], want).value;
      c <= |draws| && |ps| == want && Distinct(ps) && forall p :: p in ps ==> p < size
  {
    var r := Residues(draws, size);
    PickIsFirstSeen(r, [], want);
    FirstSeenIsSet([], r);
    var all := FirstSeen([], r);
    assert SetOf(r) == SetOf(all);
    DistinctIsSet(all);
    match Pick(r, [], want) {
      case None =>
      case Some((ps, c)) =>
        FirstSeenIsSet([], r[..c]);
        DistinctIsSet(ps);
        SubsetCount(SetOf(ps), SetOf(r));
    }
  }

  lemma SubsetCount<T>(a: set<T>, b: set<T>)
    requires a <= b
    ensures |a| <= |b|
  {
    assert b == a + (b - a);
  }

  /** Without the size() > FILE_NUM guard the loop would spin for ever on a short list. */
  lemma ShortListNeverFinishes(draws: seq<nat>, size: nat, want: nat)
    requires 0 < size < want
    ensures Pick(Residues(draws, size), [], want) == None
  {
    PickFinishesIff(draws, size, want);
    BelowCount(SetOf(Residues(draws, size)), size);
  }

  function Choose<T>(list: seq<T>, ps: seq<nat>): (r: seq<T>)
    requires forall p :: p in ps ==> p < |list|
    ensures |r| == |ps|
  {
    seq(|ps|, i requires 0 <= i < |ps| => assert ps[i] in ps; list[ps[i]])
  }

  /** With used draws the positions in have were picked; the rest decides the outcome. */
  predicate Remaining(r: seq<nat>, used: nat, have: seq<nat>, want: nat) {
    used <= |r| && Pick(r, [], want) == Plus(Pick(r[used..], have, want), used)
  }

  lemma Complete(r: seq<nat>, used: nat, have: seq<nat>, want: nat)
    requires Remaining(r, used, have, want) && |have| == want
    ensures Pick(r, [], want) == Some((have, used))
  {
  }

  /** One more draw. */
  lemma OneDraw(r: seq<nat>, used: nat, have: seq<nat>, want: nat)
    requires Remaining(r, used, have, want) && used < |r| && |have| < want
    ensures Remaining(r, used + 1, if r[used] in have then have else have + [r[used]], want)
  {
    assert r[used..][0] == r[used] && r[used..][1..] == r[used + 1..];
  }

  lemma NoDrawLeft(r: seq<nat>, have: seq<nat>, want: nat)
    requires Remaining(r, |r|, have, want) && |have| < want
    ensures Pick(r, [], want) == None
  {
  }

  /** What generateRandomFile has collected once the positions in have were picked. */
  ghost predicate Collected<T>(list: seq<T>, have: seq<nat>, chosen: seq<T>, randomUMap: set<nat>) {
    (forall p :: p in have ==> p < |list|) && chosen == Choose(list, have) && randomUMap == SetOf(have)
  }

  lemma OneMoreChosen<T>(list: seq<T>, have: seq<nat>, chosen: seq<T>, randomUMap: set<nat>, p: nat)
    requires p < |list| && Collected(list, have, chosen, randomUMap)
    ensures Collected(list, have + [p], chosen + [list[p]], randomUMap + {p})
  {
  }

  /** One round of the rejection loop: draws until a position not taken yet comes up. */
  method DrawFresh(size: nat, randomUMap: set<nat>, rand: Rand, ghost draws: seq<nat>, ghost before: nat,
                   ghost have: seq<nat>, ghost want: nat) returns (random: Option<nat>, ghost used: nat)
    requires size > 0 && rand.Valid() && |have| < want && randomUMap == SetOf(have)
    requires before <= |draws| && rand.Rest() == draws[before..] && Remaining(Residues(draws, size), before, have, want)
    modifies rand
    ensures rand.Valid() && before <= used <= |draws| && rand.Rest() == draws[used..]
    ensures random == None ==> Pick(Residues(draws, size), [], want) == None
    ensures random.Some? ==> random.value < size && random.value !in have
    ensures random.Some? ==> Remaining(Residues(draws, size), used, have + [random.value], want)
  {
    used := before;
    while true
      invariant rand.Valid() && before <= used <= |draws| && rand.Rest() == draws[used..]
      invariant Remaining(Residues(draws, size), used, have, want)
      decreases |rand.Rest()|
    {
      var draw := rand.Next();
      if draw == None {
        NoDrawLeft(Residues(draws, size), have, want);
        return None, used;
      }
      var position := draw.value % size;
      assert position == Residues(draws, size)[used];
      OneDraw(Residues(draws, size), used, have, want);
      used := used + 1;
      if position !in randomUMap {
        return Some(position), used;
      }
    }
  }

  /** One round of the outer loop. */
  method TakeFile<T>(list: seq<T>, had: seq<T>, taken: set<nat>, rand: Rand, ghost draws: seq<nat>, ghost before: nat,
                     ghost have: seq<nat>, ghost fileNum: nat)
      returns (more: bool, chosen: seq<T>, randomUMap: set<nat>, ghost position: nat, ghost used: nat)
    requires list != [] && rand.Valid() && |have| < fileNum && Collected(list, have, had, taken)
    requires before <= |draws| && rand.Rest() == draws[before..]
    requires Remaining(Residues(draws, |list|), before, have, fileNum)
    modifies rand
    ensures rand.Valid() && before <= used <= |draws| && rand.Rest() == draws[used..]
    ensures !more ==> Pick(Residues(draws, |list|), [], fileNum) == None
    ensures more ==> Collected(list, have + [position], chosen, randomUMap)
    ensures more ==> Remaining(Residues(draws, |list|), used, have + [position], fileNum)
  {
    chosen, randomUMap, position := had, taken, 0;
    var random;
    random, used := DrawFresh(|list|, randomUMap, rand, draws, before, have, fileNum);
    more := random.Some?;
    if more {
      position := random.value;
      OneMoreChosen(list, have, had, taken, position);
      chosen := chosen + [list[random.value]];
      randomUMap := randomUMap + {random.value};
    }
  }

  /** The outer loop. */
  method TakeFiles<T>(list: seq<T>, fileNum: nat, rand: Rand, ghost draws: seq<nat>)
      returns (more: bool, chosen: seq<T>, ghost have: seq<nat>, ghost used: nat)
    requires list != [] && rand.Valid() && rand.Rest() == draws
    modifies rand
    ensures rand.Valid() && used <= |draws| && rand.Rest() == draws[used..]
    ensures !more ==> Pick(Residues(draws, |list|), [], fileNum) == None
    ensures more ==> (forall p :: p in have ==> p < |list|) && chosen == Choose(list, have)
    ensures more ==> Pick(Residues(draws, |list|), [], fileNum) == Some((have, used))
  {
    more, chosen, have, used := true, [], [], 0;
    var randomUMap: set<nat> := {};
    for i := 0 to fileNum
      invariant more && rand.Valid() && 0 <= used <= |draws| && rand.Rest() == draws[used..]
      invariant |have| == i && Collected(list, have, chosen, randomUMap)
      invariant Remaining(Residues(draws, |list|), used, have, fileNum)
    {
      ghost var position;
      more, chosen, randomUMap, position, used := TakeFile(list, chosen, randomUMap, rand, draws, used, have, fileNum);
      if !more {
        return;
      }
      have := have + [position];
    }
    Complete(Residues(draws, |list|), used, have, fileNum);
  }

  /** generateRandomFile: the files at the positions that the draws pick. */
  method GenerateRandomFile<T>(list: seq<T>, fileNum: nat, rand: Rand) returns (r: Option<seq<T>>)
    requires list != [] && rand.Valid()
    modifies rand
    ensures rand.Valid()
    ensures match Pick(Residues(old(rand.Rest()), |list|), [], fileNum)
      case None => r == None
      case Some((ps, c)) => (forall p :: p in ps ==> p < |list|) && r == Some(Choose(list, ps))
                            && c <= |old(rand.Rest())| && rand.Rest() == old(rand.Rest())[c..]
  {
    var more, chosen, have, used := TakeFiles(list, fileNum, rand, rand.Rest());
    r := if more then Some(chosen) else None;
  }

  // ----- drawing offsets

  /** One offset: a draw below the file size, moved back so that READ_LEN more fit. */
  function Clamp(draw: nat, size: nat, readLen: nat): (offset: nat)
    requires 0 < readLen <= size
    ensures offset + readLen <= size
    ensures draw % size + readLen <= size ==> offset == draw % size
  {
    var random := draw % size;
    if random + readLen > size then size - readLen else random
  }

  function OffsetRow(draws: seq<nat>, num: nat, size: nat, readLen: nat): (row: seq<nat>)
    requires 0 < readLen <= size && num <= |draws|
    ensures |row| == num
  {
    seq(num, j requires 0 <= j < num => Clamp(draws[j], size, readLen))
  }

  /** The rows of offsets taken from consecutive stretches of the draws. */
  function OffsetRows(draws: seq<nat>, rows: nat, num: nat, size: nat, readLen: nat): (r: Option<seq<seq<nat>>>)
    requires 0 < readLen <= size
    ensures r.Some? ==> |r.value| == rows && forall i :: 0 <= i < rows ==> |r.value[i]| == num
    ensures r.Some? <==> |draws| >= rows * num
    decreases rows
  {
    if rows == 0 then Some([])
    else
      MulSucc(rows - 1, num);
      if |draws| < num then None
      else
        match OffsetRows(draws[num..], rows - 1, num, size, readLen)
        case None => None
        case Some(rest) => Some([OffsetRow(draws, num, size, readLen)] + rest)
  }

  lemma {:induction false} ClampAt(draws: seq<nat>, rows: nat, num: nat, size: nat, readLen: nat, i: nat, j: nat)
    requires 0 < readLen <= size && i < rows && j < num && |draws| >= rows * num
    ensures i * num + j < |draws|
    ensures OffsetRows(draws, rows, num, size, readLen).value[i][j] == Clamp(draws[i * num + j], size, readLen)
  {
    MulSucc(rows - 1, num);
    MulMonotone(i + 1, rows, num);
    MulSucc(i, num);
    if i > 0 {
      MulSucc(i - 1, num);
      ClampAt(draws[num..], rows - 1, num, size, readLen, i - 1, j);
    }
  }

  /** Row i, column j is draw number i * num + j, reduced to the file size and moved back so
      that readLen more fit. */
  lemma OffsetAt(draws: seq<nat>, rows: nat, num: nat, size: nat, readLen: nat, i: nat, j: nat)
    requires 0 < readLen <= size && i < rows && j < num && |draws| >= rows * num
    ensures i * num + j < |draws|
    ensures OffsetRows(draws, rows, num, size, readLen).value[i][j]
         == if draws[i * num + j] % size + readLen > size then size - readLen else draws[i * num + j] % size
  {
    ClampAt(draws, rows, num, size, readLen, i, j);
  }

  /** The inner loop of generateRandom. */
  method GenerateRow(num: nat, size: nat, readLen: nat, rand: Rand) returns (subVec: Option<seq<nat>>)
    requires 0 < readLen <= size && rand.Valid()
    modifies rand
    ensures rand.Valid()
    ensures subVec.Some? <==> |old(rand.Rest())| >= num
    ensures subVec.Some? ==> subVec.value == OffsetRow(old(rand.Rest()), num, size, readLen)
    ensures subVec.Some? ==> rand.Rest() == old(rand.Rest())[num..]
  {
    var row: seq<nat> := [];
    ghost var start := rand.Rest();
    for j := 0 to num
      invariant rand.Valid() && |row| == j <= |start| && rand.Rest() == start[j..]
      invariant row == OffsetRow(start, j, size, readLen)
    {
      var draw := rand.Next();
      if draw == None {
        return None;
      }
      row := row + [Clamp(draw.value, size, readLen)];
    }
    subVec := Some(row);
  }

  /** generateRandom: rows * num draws in order; None while the draws are not all there. */
  method GenerateRandom(rows: nat, num: nat, size: nat, readLen: nat, rand: Rand) returns (vec: Option<seq<seq<nat>>>)
    requires 0 < readLen <= size && rand.Valid()
    modifies rand
    ensures rand.Valid()
    ensures vec == OffsetRows(old(rand.Rest()), rows, num, size, readLen)
  {
    var out: seq<seq<nat>> := [];
    ghost var all := OffsetRows(rand.Rest(), rows, num, size, readLen);
    assert all.Some? ==> [] + all.value == all.value;
    for i := 0 to rows
      invariant rand.Valid() && |out| == i
      invariant all == Prepend(out, OffsetRows(rand.Rest(), rows - i, num, size, readLen))
    {
      ghost var before := rand.Rest();
      var subVec := GenerateRow(num, size, readLen, rand);
      if subVec == None {
        assert all == None;
        return None;
      }
      PrependStep(out, before, rows - i, num, size, readLen);
      out := out + [subVec.value];
    }
    assert OffsetRows(rand.Rest(), 0, num, size, readLen) == Some([]);
    assert out + [] == out;
    vec := Some(out);
  }

  function Prepend(out: seq<seq<nat>>, rest: Option<seq<seq<nat>>>): Option<seq<seq<nat>>> {
    match rest
    case None => None
    case Some(r) => Some(out + r)
  }

  lemma PrependStep(out: seq<seq<nat>>, draws: seq<nat>, rows: nat, num: nat, size: nat, readLen: nat)
    requires 0 < readLen <= size && rows > 0 && num <= |draws|
    ensures Prepend(out, OffsetRows(draws, rows, num, size, readLen))
         == Prepend(out + [OffsetRow(draws, num, size, readLen)], OffsetRows(draws[num..], rows - 1, num, size, readLen))
  {
    match OffsetRows(draws[num..], rows - 1, num, size, readLen) {
      case None =>
      case Some(rest) =>
        assert out + ([OffsetRow(draws, num, size, readLen)] + rest) == out + [OffsetRow(draws, num, size, readLen)] + rest;
    }
  }
}
