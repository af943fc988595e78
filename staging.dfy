/**
 * The staging area of one upload, as the server leaves it on disk: a
 * directory of chunk files, each named by the text of the client's
 * `chunkIndex` field.  This module holds the value-level theory the handlers
 * are proved against: how puts accumulate, what the status listing reports,
 * and what the merge loop produces from a directory.
 */
module Staging {
  import opened Wrappers
  import opened JsNumber
  import opened Ordering

  newtype uint8 = x: int | 0 <= x < 256

  type Bytes = seq<uint8>

  /** One staging directory: chunk file name to file contents. */
  type Dir = map<string, Bytes>

  /** `readdirSync` of a directory: every entry exactly once, in an order the model leaves open. */
  ghost predicate IsListing(names: seq<string>, dir: Dir) {
    && |names| == |dir|
    && Distinct(names)
    && forall name :: name in names <==> name in dir
  }

  predicate AllParse(dir: Dir) {
    forall name :: name in dir ==> ParseInt(name).Some?
  }

  predicate AllCanonical(dir: Dir) {
    forall name :: name in dir ==> IsCanonicalIndex(name)
  }

  /** `names.map((chunk) => parseInt(chunk, 10))`, NaN being None. */
  function ParseAll(names: seq<string>): (r: seq<Option<int>>)
    ensures |r| == |names|
    ensures forall i :: 0 <= i < |names| ==> r[i] == ParseInt(names[i])
  {
    if names == [] then [] else [ParseInt(names[0])] + ParseAll(names[1..])
  }

  /** The same map on names that all parse. */
  function ParseValues(names: seq<string>): (r: seq<int>)
    requires forall i :: 0 <= i < |names| ==> ParseInt(names[i]).Some?
    ensures |r| == |names|
    ensures forall i :: 0 <= i < |names| ==> r[i] == ParseInt(names[i]).value
  {
    if names == [] then [] else [ParseInt(names[0]).value] + ParseValues(names[1..])
  }

  /** `mkdirSync` of a key's directory when it does not exist yet: an existing directory is kept as it is. */
  function MakeDir(staging: map<string, Dir>, key: string): (r: map<string, Dir>)
    ensures r.Keys == staging.Keys + {key}
    ensures key in staging ==> r == staging
    ensures key !in staging ==> r[key] == map[] && forall other :: other in staging ==> r[other] == staging[other]
  {
    if key in staging then staging else staging[key := map[]]
  }

  /** How the staging area changes when a chunk is put: the directory of the key is created if absent, the named chunk is written, last write wins. */
  function StagePut(staging: map<string, Dir>, key: string, name: string, payload: Bytes): (r: map<string, Dir>)
    ensures r.Keys == staging.Keys + {key}
    ensures r[key].Keys == (if key in staging then staging[key].Keys else {}) + {name}
    ensures r[key][name] == payload
    ensures forall other :: other in staging && other != key ==> r[other] == staging[other]
    ensures key in staging ==> forall other :: other in staging[key] && other != name ==> r[key][other] == staging[key][other]
  {
    staging[key := (if key in staging then staging[key] else map[])[name := payload]]
  }

  /** One chunk upload as a directory sees it: the name `${chunkIndex}` and the payload. */
  datatype Put = Put(name: string, payload: Bytes)

  /** A directory after a run of puts, in arrival order. */
  function Replay(dir: Dir, puts: seq<Put>): Dir
    decreases |puts|
  {
    if puts == [] then dir else Replay(dir[puts[0].name := puts[0].payload], puts[1..])
  }

  function PutNames(puts: seq<Put>): set<string> {
    set i | 0 <= i < |puts| :: puts[i].name
  }

  /** Appending a put to the history is one more put on the directory. */
  lemma {:induction false} ReplayStep(dir: Dir, puts: seq<Put>, p: Put)
    ensures Replay(dir, puts + [p]) == Replay(dir, puts)[p.name := p.payload]
    decreases |puts|
  {
    if puts != [] {
      assert (puts + [p])[1..] == puts[1..] + [p];
      ReplayStep(dir[puts[0].name := puts[0].payload], puts[1..], p);
    }
  }

  /** The chunks present after a run of puts: those present before, plus one per distinct name put. */
  lemma {:induction false} ReplayNames(dir: Dir, puts: seq<Put>)
    ensures Replay(dir, puts).Keys == dir.Keys + PutNames(puts)
    decreases |puts|
  {
    if puts != [] {
      ReplayNames(dir[puts[0].name := puts[0].payload], puts[1..]);
      assert PutNames(puts) == {puts[0].name} + PutNames(puts[1..]) by {
        forall n | n in PutNames(puts) ensures n in {puts[0].name} + PutNames(puts[1..]) {
          var i :| 0 <= i < |puts| && puts[i].name == n;
          if i > 0 { assert puts[1..][i - 1].name == n; }
        }
        forall n | n in PutNames(puts[1..]) ensures n in PutNames(puts) {
          var i :| 0 <= i < |puts[1..]| && puts[1..][i].name == n;
          assert puts[i + 1].name == n;
        }
      }
    }
  }

  /** A chunk no put names is left as it was. */
  lemma {:induction false} ReplayUntouched(dir: Dir, puts: seq<Put>, name: string)
    requires forall i :: 0 <= i < |puts| ==> puts[i].name != name
    ensures name in Replay(dir, puts) <==> name in dir
    ensures name in dir ==> Replay(dir, puts)[name] == dir[name]
    decreases |puts|
  {
    if puts != [] {
      ReplayUntouched(dir[puts[0].name := puts[0].payload], puts[1..], name);
    }
  }

  /** Last write wins: a chunk holds the payload of the last put that named it. */
  lemma {:induction false} ReplayLastWriteWins(dir: Dir, puts: seq<Put>, i: nat)
    requires i < |puts|
    requires forall j :: i < j < |puts| ==> puts[j].name != puts[i].name
    ensures puts[i].name in Replay(dir, puts)
    ensures Replay(dir, puts)[puts[i].name] == puts[i].payload
    decreases |puts|
  {
    var next := dir[puts[0].name := puts[0].payload];
    if i == 0 {
      ReplayUntouched(next, puts[1..], puts[0].name);
    } else {
      ReplayLastWriteWins(next, puts[1..], i - 1);
    }
  }

  /**
   * With distinct chunk names, the arrival order of the puts does not matter:
   * any permutation of them leaves the same directory.
   */
  lemma ReplayOrderIrrelevant(dir: Dir, puts: seq<Put>, others: seq<Put>)
    requires multiset(puts) == multiset(others)
    requires forall i, j :: 0 <= i < j < |puts| ==> puts[i].name != puts[j].name
    requires forall i, j :: 0 <= i < j < |others| ==> others[i].name != others[j].name
    ensures Replay(dir, puts) == Replay(dir, others)
  {
    ReplayNames(dir, puts);
    ReplayNames(dir, others);
    assert PutNames(puts) == PutNames(others) by {
      forall n | n in PutNames(puts) ensures n in PutNames(others) {
        var i :| 0 <= i < |puts| && puts[i].name == n;
        assert puts[i] in multiset(others);
      }
      forall n | n in PutNames(others) ensures n in PutNames(puts) {
        var i :| 0 <= i < |others| && others[i].name == n;
        assert others[i] in multiset(puts);
      }
    }
    forall name | name in Replay(dir, puts)
      ensures Replay(dir, puts)[name] == Replay(dir, others)[name]
    {
      if i :| 0 <= i < |puts| && puts[i].name == name {
        assert puts[i] in multiset(others);
        var j :| 0 <= j < |others| && others[j] == puts[i];
        ReplayLastWriteWins(dir, puts, i);
        ReplayLastWriteWins(dir, others, j);
      } else {
        ReplayUntouched(dir, puts, name);
        forall j | 0 <= j < |others| ensures others[j].name != name {
          assert others[j] in multiset(puts);
        }
        ReplayUntouched(dir, others, name);
      }
    }
  }

  /** Puts named `${n}` leave a canonical directory whose indices are exactly the n put. */
  lemma CanonicalPutsIndices(puts: seq<Put>, indices: seq<int>)
    requires |puts| == |indices|
    requires forall i :: 0 <= i < |puts| ==> puts[i].name == DecimalString(indices[i])
    ensures AllCanonical(Replay(map[], puts))
    ensures Indices(Replay(map[], puts)) == set i | 0 <= i < |indices| :: indices[i]
  {
    var dir := Replay(map[], puts);
    ReplayNames(map[], puts);
    forall name | name in dir ensures IsCanonicalIndex(name) {
      var i :| 0 <= i < |puts| && puts[i].name == name;
      DecimalIsCanonical(indices[i]);
    }
    forall n ensures n in Indices(dir) <==> n in set i | 0 <= i < |indices| :: indices[i] {
      IndexNamed(dir, n);
      if DecimalString(n) in dir {
        var i :| 0 <= i < |puts| && puts[i].name == DecimalString(n);
        DecimalInjective(indices[i], n);
      }
      if i :| 0 <= i < |indices| && indices[i] == n {
        assert puts[i].name in PutNames(puts);
      }
    }
  }

  /** The order in which the merge visits the chunks: the parsed names sorted numerically. */
  function MergeOrder(names: seq<string>): seq<int>
    requires forall i :: 0 <= i < |names| ==> ParseInt(names[i]).Some?
  {
    SortAscending(ParseValues(names))
  }

  /** The indices the names of a directory parse to. */
  ghost function Indices(dir: Dir): set<int> {
    set name | name in dir && ParseInt(name).Some? :: ParseInt(name).value
  }

  /**
   * What the status handler reports for a canonical directory: one entry per
   * chunk, no NaN, no repetition, and exactly the indices staged.
   */
  lemma StatusOfCanonical(dir: Dir, names: seq<string>)
    requires IsListing(names, dir) && AllCanonical(dir)
    ensures forall i :: 0 <= i < |names| ==> ParseAll(names)[i].Some? && ParseAll(names)[i].value in Indices(dir)
    ensures forall n :: n in Indices(dir) ==> Some(n) in ParseAll(names)
    ensures Distinct(ParseAll(names))
  {
    var r := ParseAll(names);
    forall i | 0 <= i < |names| ensures r[i].Some? && r[i].value in Indices(dir) {
      assert names[i] in dir;
    }
    forall n | n in Indices(dir) ensures Some(n) in r {
      var name :| name in dir && ParseInt(name).Some? && ParseInt(name).value == n;
      var i :| 0 <= i < |names| && names[i] == name;
      assert r[i] == Some(n);
    }
    forall i, j | 0 <= i < j < |r| ensures r[i] != r[j] {
      assert names[i] in dir && names[j] in dir;
      CanonicalInjective(names[i], names[j]);
    }
  }

  /** Adds the bytes already written in front of what the rest of the loop writes. */
  function Prefixed(written: Bytes, d: Drain): Drain {
    Drain(written + d.written, d.rest, d.complete)
  }

  /** What the merge loop leaves behind: the bytes written, the chunks not unlinked, and whether every read succeeded. */
  datatype Drain = Drain(written: Bytes, rest: Dir, complete: bool)

  /**
   * The merge loop over `order`: each index n is read back from the file
   * named `${n}`, appended to the output and unlinked; a name that is not
   * (or no longer) in the directory makes the read throw and stops the loop.
   */
  function DrainChunks(dir: Dir, order: seq<int>): Drain
    decreases |order|
  {
    if order == [] then Drain([], dir, true)
    else
      var name := DecimalString(order[0]);
      if name !in dir then Drain([], dir, false)
      else
        var tail := DrainChunks(dir - {name}, order[1..]);
        Drain(dir[name] + tail.written, tail.rest, tail.complete)
  }

  lemma IndicesCoverNames(dir: Dir)
    requires AllParse(dir)
    ensures forall name :: name in dir ==> ParseInt(name).value in Indices(dir)
  {
  }

  /** In a canonical directory, index n is present exactly when the file `${n}` is. */
  lemma IndexNamed(dir: Dir, n: int)
    requires AllCanonical(dir)
    ensures n in Indices(dir) <==> DecimalString(n) in dir
  {
    DecimalRoundTrip(n);
    if n in Indices(dir) {
      var name :| name in dir && ParseInt(name).Some? && ParseInt(name).value == n;
      assert name == DecimalString(n);
    }
  }

  lemma IndicesNonEmpty(dir: Dir)
    requires AllParse(dir) && |dir| > 0
    ensures |Indices(dir)| > 0
  {
    NonEmptyHasMember(dir.Keys);
    var name :| name in dir;
    assert ParseInt(name).value in Indices(dir);
  }

  /** Unlinking the file of index n from a canonical directory removes exactly n from its indices. */
  lemma IndicesRemove(dir: Dir, n: int)
    requires AllCanonical(dir) && n in Indices(dir)
    ensures AllCanonical(dir - {DecimalString(n)})
    ensures Indices(dir - {DecimalString(n)}) == Indices(dir) - {n}
  {
    var rest := dir - {DecimalString(n)};
    forall m | m in Indices(rest)
      ensures m in Indices(dir) - {n}
    {
      var name :| name in rest && ParseInt(name).Some? && ParseInt(name).value == m;
      assert name in dir && IsCanonicalIndex(name);
      assert m in Indices(dir);
      assert name == DecimalString(m);
      DecimalInjective(m, n);
    }
    forall m | m in Indices(dir) - {n}
      ensures m in Indices(rest)
    {
      IndexNamed(dir, m);
      DecimalInjective(m, n);
      DecimalRoundTrip(m);
      assert DecimalString(m) in rest;
    }
  }

  /**
   * The reference meaning of a merge: the chunk with the least index first,
   * then the rest of the directory the same way.
   */
  ghost function AscendingConcat(dir: Dir): Bytes
    requires AllCanonical(dir)
    decreases |dir|
  {
    if |dir| == 0 then []
    else
      IndicesNonEmpty(dir);
      var n := Least(Indices(dir));
      IndexNamed(dir, n);
      IndicesRemove(dir, n);
      var name := DecimalString(n);
      dir[name] + AscendingConcat(dir - {name})
  }

  /** Unfolds the reference merge at its least index. */
  lemma AscendingConcatLeast(dir: Dir, n: int)
    requires AllCanonical(dir) && n in Indices(dir)
    requires forall m :: m in Indices(dir) ==> n <= m
    ensures DecimalString(n) in dir && AllCanonical(dir - {DecimalString(n)})
    ensures AscendingConcat(dir) == dir[DecimalString(n)] + AscendingConcat(dir - {DecimalString(n)})
  {
    IndexNamed(dir, n);
    IndicesRemove(dir, n);
    IndicesNonEmpty(dir);
    assert Least(Indices(dir)) == n;
  }

  /**
   * Two chunks merge in numeric order of their indices, whatever the order
   * of their names as text: chunk `${m}` comes first when m < n.
   */
  lemma AscendingConcatTwo(m: int, n: int, first: Bytes, second: Bytes)
    requires m < n
    ensures AllCanonical(map[DecimalString(m) := first, DecimalString(n) := second])
    ensures AscendingConcat(map[DecimalString(m) := first, DecimalString(n) := second]) == first + second
  {
    var dir := map[DecimalString(m) := first, DecimalString(n) := second];
    DecimalIsCanonical(m);
    DecimalIsCanonical(n);
    DecimalInjective(m, n);
    forall k | k in Indices(dir) ensures m <= k {
      IndexNamed(dir, k);
      DecimalInjective(k, m);
      DecimalInjective(k, n);
    }
    IndexNamed(dir, m);
    AscendingConcatLeast(dir, m);
    var rest := dir - {DecimalString(m)};
    assert rest == map[DecimalString(n) := second];
    IndexNamed(rest, n);
    forall k | k in Indices(rest) ensures n <= k {
      IndexNamed(rest, k);
      DecimalInjective(k, n);
    }
    AscendingConcatLeast(rest, n);
    assert rest - {DecimalString(n)} == map[];
    assert second + [] == second;
  }

  /** "10" is merged after "2", although it sorts before it as text. */
  lemma TenAfterTwo(two: Bytes, ten: Bytes)
    ensures AllCanonical(map["10" := ten, "2" := two])
    ensures AscendingConcat(map["10" := ten, "2" := two]) == two + ten
  {
    assert DecimalString(2) == "2" && DecimalString(10) == "10";
    assert map["10" := ten, "2" := two] == map[DecimalString(2) := two, DecimalString(10) := ten];
    AscendingConcatTwo(2, 10, two, ten);
  }

  /**
   * Visiting the indices of a canonical directory in ascending order, each
   * once, reads every chunk, unlinks every chunk, and writes the chunks in
   * ascending index order.
   */
  lemma {:induction false} DrainCanonical(dir: Dir, order: seq<int>)
    requires AllCanonical(dir)
    requires Ascending(order) && Distinct(order)
    requires forall n :: n in order <==> n in Indices(dir)
    ensures DrainChunks(dir, order) == Drain(AscendingConcat(dir), map[], true)
    decreases |order|
  {
    if order == [] {
      IndicesCoverNames(dir);
      assert dir.Keys == {};
      assert dir == map[];
    } else {
      var n := order[0];
      var indices := Indices(dir);
      assert n in indices;
      IndicesNonEmpty(dir);
      var least := Least(indices);
      assert least in order;
      assert n == least;
      var name := DecimalString(n);
      IndexNamed(dir, n);
      IndicesRemove(dir, n);
      var rest := dir - {name};
      assert order == [n] + order[1..];
      assert Distinct(order[1..]);
      forall m ensures m in order[1..] <==> m in Indices(rest) {
        assert m in order[1..] ==> m != n;
      }
      DrainCanonical(rest, order[1..]);
    }
  }

  /**
   * The merge loop only ever unlinks names of the form `${n}`, never alters a
   * chunk it leaves, and when every read succeeds it unlinks one chunk per
   * index visited.
   */
  lemma {:induction false} DrainFrame(dir: Dir, order: seq<int>)
    ensures DrainChunks(dir, order).rest.Keys <= dir.Keys
    ensures forall name :: name in DrainChunks(dir, order).rest ==> DrainChunks(dir, order).rest[name] == dir[name]
    ensures forall name :: name in dir && name !in DrainChunks(dir, order).rest ==> IsCanonicalIndex(name)
    ensures DrainChunks(dir, order).complete ==> |order| <= |dir| && |DrainChunks(dir, order).rest| == |dir| - |order|
    decreases |order|
  {
    if order != [] {
      var name := DecimalString(order[0]);
      if name in dir {
        DecimalIsCanonical(order[0]);
        var rest := dir - {name};
        assert rest.Keys == dir.Keys - {name};
        DrainFrame(rest, order[1..]);
      }
    }
  }

  /** For a listing of a canonical directory, the merge order is every index once, ascending. */
  lemma MergeOrderOfCanonical(dir: Dir, names: seq<string>)
    requires IsListing(names, dir) && AllCanonical(dir)
    ensures forall i :: 0 <= i < |names| ==> ParseInt(names[i]).Some?
    ensures Ascending(MergeOrder(names)) && Distinct(MergeOrder(names))
    ensures forall n :: n in MergeOrder(names) <==> n in Indices(dir)
    ensures |MergeOrder(names)| == |dir|
  {
    assert forall i :: 0 <= i < |names| ==> names[i] in dir;
    var values := ParseValues(names);
    forall i, j | 0 <= i < j < |values|
      ensures values[i] != values[j]
    {
      CanonicalInjective(names[i], names[j]);
    }
    SortKeepsDistinct(values);
    var order := MergeOrder(names);
    assert multiset(order) == multiset(values);
    forall n
      ensures n in order <==> n in Indices(dir)
    {
      assert n in order <==> n in multiset(order);
      assert n in values <==> n in multiset(values);
      if n in Indices(dir) {
        var name :| name in dir && ParseInt(name).Some? && ParseInt(name).value == n;
        var i :| 0 <= i < |names| && names[i] == name;
        assert values[i] == ParseInt(names[i]).value;
      }
      if n in values {
        var i :| 0 <= i < |values| && values[i] == n;
        assert names[i] in dir;
      }
    }
    assert |multiset(order)| == |order|;
    assert |multiset(values)| == |values|;
  }

  /**
   * A merge of a canonical directory reads every chunk, leaves nothing
   * staged, and writes the chunks in ascending numeric index order, whatever
   * order the directory was listed in.
   */
  lemma MergeOfCanonical(dir: Dir, names: seq<string>)
    requires IsListing(names, dir) && AllCanonical(dir)
    ensures forall i :: 0 <= i < |names| ==> ParseInt(names[i]).Some?
    ensures DrainChunks(dir, MergeOrder(names)) == Drain(AscendingConcat(dir), map[], true)
  {
    MergeOrderOfCanonical(dir, names);
    DrainCanonical(dir, MergeOrder(names));
  }

  /** When every read succeeds and there was one index per chunk, every chunk name was canonical. */
  lemma DrainCompleteCanonical(dir: Dir, order: seq<int>)
    requires |order| == |dir|
    ensures DrainChunks(dir, order).complete ==> AllCanonical(dir)
  {
    DrainFrame(dir, order);
    if DrainChunks(dir, order).complete {
      assert DrainChunks(dir, order).rest.Keys == {};
    }
  }

  /**
   * Every read of the merge succeeds exactly when every chunk name is
   * canonical: a name like "01", "+1" or "-0" is parsed to an index whose
   * file `${n}` is not that name.
   */
  lemma MergeCompletesIffCanonical(dir: Dir, names: seq<string>)
    requires IsListing(names, dir) && AllParse(dir)
    ensures forall i :: 0 <= i < |names| ==> ParseInt(names[i]).Some?
    ensures DrainChunks(dir, MergeOrder(names)).complete <==> AllCanonical(dir)
  {
    assert forall i :: 0 <= i < |names| ==> names[i] in dir;
    var order := MergeOrder(names);
    assert |multiset(order)| == |order|;
    assert |multiset(ParseValues(names))| == |names|;
    DrainCompleteCanonical(dir, order);
    if AllCanonical(dir) {
      MergeOfCanonical(dir, names);
    }
  }
}
