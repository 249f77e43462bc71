/** The anonymiser of the processing thread: it finds the videos under a
    folder, gives each a new name in the output folder, strips their
    metadata with ffmpeg and logs "original, anonymized" name pairs to a CSV
    file. Random draws (`secrets.randbelow`, `uuid4`) are parameters. */
module Anonymizer {
  import opened Wrappers
  import opened Digits
  import opened Paths
  import opened HostModel
  import opened VideoUtils
  import Browser

  // ---------------------------------------------------------------------------
  // Name generators
  // ---------------------------------------------------------------------------

  /** `prefix + f"{n:0{width}}"` */
  function SeqName(prefix: string, n: int, width: nat): string
  {
    prefix + ZeroPadInt(n, width)
  }

  /** Different counter values give different names. */
  lemma SeqNameInjective(prefix: string, a: int, b: int, width: nat)
    requires SeqName(prefix, a, width) == SeqName(prefix, b, width)
    ensures a == b
  {
    PrefixCancel(prefix, ZeroPadInt(a, width), ZeroPadInt(b, width));
    ZeroPadIntInjective(a, b, width);
  }

  lemma SeqNameExample()
    ensures SeqName("video", 7, 3) == "video007"
  {
    assert NatToString(7) == "7";
    assert Zeros(2) == "00" by {
      assert Zeros(1) == "0";
    }
  }

  /** The closure `incrementing_name` with its non-local counter `n`. */
  class IncrementingName {
    const prefix: string
    const width: nat
    var n: int

    /** `name_generator(prefix=prefix, start=start, width=width)` */
    constructor (prefix: string, start: int, width: nat)
      ensures this.prefix == prefix && this.width == width && n == start - 1
    {
      this.prefix := prefix;
      this.width := width;
      n := start - 1;
    }

    /** One call: the counter goes up first, so the first name uses `start`. */
    method Next() returns (name: string)
      modifies this
      ensures n == old(n) + 1 && name == SeqName(prefix, n, width)
    {
      n := n + 1;
      name := prefix + ZeroPadInt(n, width);
    }
  }

  /** The k-th call of a fresh generator returns the name of `start + k`, so
      two calls never return the same name. */
  lemma GeneratorCallsDistinct(prefix: string, start: int, width: nat, k: nat, l: nat)
    requires k != l
    ensures SeqName(prefix, start + k, width) != SeqName(prefix, start + l, width)
  {
    if SeqName(prefix, start + k, width) == SeqName(prefix, start + l, width) {
      SeqNameInjective(prefix, start + k, start + l, width);
    }
  }

  /** `uuid4().hex[:-25]`, for the drawn `hex`. */
  function UuidName(hex: string): (name: string)
    ensures name <= hex
    ensures |name| == if |hex| >= 25 then |hex| - 25 else 0
  {
    if |hex| >= 25 then hex[..|hex| - 25] else ""
  }

  /** A uuid4 hex string has 32 digits, so the name is its first 7. */
  lemma UuidNameLength(hex: string)
    requires |hex| == 32
    ensures UuidName(hex) == hex[..7]
  {
  }

  /** `seq_width(num)`: `floor(log10(num)) + 1`; `math.log10` raises
      ValueError for num <= 0. */
  function SeqWidth(num: int): (r: Result<nat>)
    ensures r.Failure? <==> num <= 0
    ensures r.Failure? ==> r.error == ValueError
    ensures r.Success? ==> r.value >= 1 && Pow10(r.value - 1) <= num < Pow10(r.value)
  {
    if num <= 0 then Failure(ValueError)
    else
      DigitCountBounds(num);
      NatToStringShape(num);
      Success(|NatToString(num)|)
  }

  lemma SeqWidthExample()
    ensures SeqWidth(103) == Success(3)
  {
    assert NatToString(103) == NatToString(10) + [DigitChar(3)];
    assert NatToString(10) == NatToString(1) + [DigitChar(0)];
  }

  // ---------------------------------------------------------------------------
  // Shuffle
  // ---------------------------------------------------------------------------

  /** Draws of `secrets.randbelow(len(items))`, one per element: the k-th
      draw is below the number of elements still left. */
  predicate ValidPicks(picks: seq<nat>, n: nat)
  {
    |picks| == n && forall k :: 0 <= k < n ==> picks[k] < n - k
  }

  lemma ValidPicksTail(picks: seq<nat>, n: nat)
    requires n > 0 && ValidPicks(picks, n)
    ensures ValidPicks(picks[1..], n - 1)
  {
    forall k | 0 <= k < n - 1
      ensures picks[1..][k] < n - 1 - k
    {
      assert picks[1..][k] == picks[k + 1];
    }
  }

  /** `items.pop(i)` */
  function RemoveAt<T>(s: seq<T>, i: nat): (r: seq<T>)
    requires i < |s|
    ensures |r| == |s| - 1
    ensures multiset(r) + multiset{s[i]} == multiset(s)
  {
    assert s == s[..i] + [s[i]] + s[i + 1..];
    s[..i] + s[i + 1..]
  }

  lemma RemoveAtIndex<T>(s: seq<T>, i: nat, m: nat)
    requires i < |s| && m < |s| - 1
    ensures RemoveAt(s, i)[m] == if m < i then s[m] else s[m + 1]
  {
    if m < i {
      assert RemoveAt(s, i)[m] == s[..i][m];
    } else {
      assert RemoveAt(s, i)[m] == s[i + 1..][m - i];
    }
  }

  /** The order in which `shuffle` yields `items` for the given draws. */
  function Shuffled<T>(items: seq<T>, picks: seq<nat>): (r: seq<T>)
    requires ValidPicks(picks, |items|)
    ensures |r| == |items|
    decreases |items|
  {
    if |items| == 0 then []
    else
      ValidPicksTail(picks, |items|);
      [items[picks[0]]] + Shuffled(RemoveAt(items, picks[0]), picks[1..])
  }

  /** Every element is yielded exactly as often as it occurs. */
  lemma {:induction false} ShuffledPermutation<T>(items: seq<T>, picks: seq<nat>)
    requires ValidPicks(picks, |items|)
    ensures multiset(Shuffled(items, picks)) == multiset(items)
    decreases |items|
  {
    if |items| > 0 {
      ValidPicksTail(picks, |items|);
      ShuffledPermutation(RemoveAt(items, picks[0]), picks[1..]);
    }
  }

  /** `shuffle(some_list)`, run to the end: pops a random element of a copy
      until the copy is empty. */
  method Shuffle<T>(someList: seq<T>, picks: seq<nat>) returns (out: seq<T>)
    requires ValidPicks(picks, |someList|)
    ensures out == Shuffled(someList, picks)
    ensures multiset(out) == multiset(someList)
  {
    ghost var whole := Shuffled(someList, picks);
    var items := someList;
    out := [];
    var k := 0;
    while |items| > 0
      invariant k + |items| == |someList| && k <= |picks|
      invariant ValidPicks(picks[k..], |items|)
      invariant out + Shuffled(items, picks[k..]) == whole
      invariant multiset(out) + multiset(items) == multiset(someList)
      decreases |items|
    {
      var i := picks[k];
      ShuffleStep(picks[k..], items, out, whole);
      assert picks[k..][1..] == picks[k + 1..];
      out := out + [items[i]];
      items := RemoveAt(items, i);
      k := k + 1;
    }
  }

  /** One pop of `shuffle` keeps the yielded prefix consistent with the
      whole order. */
  lemma ShuffleStep<T>(ps: seq<nat>, items: seq<T>, out: seq<T>, whole: seq<T>)
    requires |items| > 0 && ValidPicks(ps, |items|)
    requires out + Shuffled(items, ps) == whole
    ensures ps[0] < |items| && ValidPicks(ps[1..], |items| - 1)
    ensures (out + [items[ps[0]]]) + Shuffled(RemoveAt(items, ps[0]), ps[1..]) == whole
  {
    ValidPicksTail(ps, |items|);
    var h := [items[ps[0]]];
    var t := Shuffled(RemoveAt(items, ps[0]), ps[1..]);
    assert Shuffled(items, ps) == h + t;
    ShuffleJoin(out, h, t, whole);
  }

  lemma ShuffleJoin<T>(out: seq<T>, h: seq<T>, t: seq<T>, whole: seq<T>)
    requires out + (h + t) == whole
    ensures (out + h) + t == whole
  {
  }

  predicate Distinct<T(==)>(s: seq<T>)
  {
    forall i, j :: 0 <= i < j < |s| ==> s[i] != s[j]
  }

  lemma {:induction false} ShuffledDistinct<T>(items: seq<T>, picks: seq<nat>)
    requires ValidPicks(picks, |items|) && Distinct(items)
    ensures Distinct(Shuffled(items, picks))
    decreases |items|
  {
    if |items| > 0 {
      ValidPicksTail(picks, |items|);
      var p := picks[0];
      var rest := RemoveAt(items, p);
      RemoveAtDistinct(items, p);
      ShuffledDistinct(rest, picks[1..]);
      ShuffledPermutation(rest, picks[1..]);
      var tail := Shuffled(rest, picks[1..]);
      assert items[p] !in tail by {
        assert items[p] !in multiset(tail);
      }
      ConsDistinct(items[p], tail);
    }
  }

  /** Popping from a list without repeats leaves no repeats and no copy of
      the popped element. */
  lemma RemoveAtDistinct<T>(items: seq<T>, p: nat)
    requires p < |items| && Distinct(items)
    ensures Distinct(RemoveAt(items, p)) && items[p] !in multiset(RemoveAt(items, p))
  {
    var rest := RemoveAt(items, p);
    forall i, j | 0 <= i < j < |rest|
      ensures rest[i] != rest[j]
    {
      RemoveAtIndex(items, p, i);
      RemoveAtIndex(items, p, j);
    }
    forall m | 0 <= m < |rest|
      ensures rest[m] != items[p]
    {
      RemoveAtIndex(items, p, m);
    }
    assert items[p] !in rest;
  }

  lemma ConsDistinct<T>(x: T, tail: seq<T>)
    requires x !in tail && Distinct(tail)
    ensures Distinct([x] + tail)
  {
    var r := [x] + tail;
    forall i, j | 0 <= i < j < |r|
      ensures r[i] != r[j]
    {
      if i == 0 {
        assert r[j] == tail[j - 1];
      } else {
        assert r[i] == tail[i - 1] && r[j] == tail[j - 1];
      }
    }
  }

  // ---------------------------------------------------------------------------
  // The name map (an insertion-ordered dict)
  // ---------------------------------------------------------------------------

  /** One `orig_path: new_path` item. */
  datatype Entry = Entry(orig: FilePath, renamed: FilePath)

  function Keys(d: seq<Entry>): set<FilePath>
  {
    if |d| == 0 then {} else {d[0].orig} + Keys(d[1..])
  }

  lemma {:induction false} KeysHas(d: seq<Entry>, j: nat)
    requires j < |d|
    ensures d[j].orig in Keys(d)
    decreases j
  {
    if j > 0 {
      KeysHas(d[1..], j - 1);
    }
  }

  lemma {:induction false} KeysWitness(d: seq<Entry>, p: FilePath) returns (j: nat)
    requires p in Keys(d)
    ensures j < |d| && d[j].orig == p
    decreases |d|
  {
    if d[0].orig == p {
      j := 0;
    } else {
      var i := KeysWitness(d[1..], p);
      j := i + 1;
    }
  }

  predicate KeysDistinct(d: seq<Entry>)
  {
    forall i, j :: 0 <= i < j < |d| ==> d[i].orig != d[j].orig
  }

  /** `d[k]`, or None when `k` is not a key. */
  function Lookup(d: seq<Entry>, k: FilePath): Option<FilePath>
  {
    if |d| == 0 then None
    else if d[0].orig == k then Some(d[0].renamed)
    else Lookup(d[1..], k)
  }

  /** `d[k] = v`: a new key goes last, an existing key keeps its place. */
  function Put(d: seq<Entry>, k: FilePath, v: FilePath): seq<Entry>
  {
    if |d| == 0 then [Entry(k, v)]
    else if d[0].orig == k then [Entry(k, v)] + d[1..]
    else [d[0]] + Put(d[1..], k, v)
  }

  /** `d[k] = v` adds `k` to the keys and no other. */
  lemma {:induction false} PutKeys(d: seq<Entry>, k: FilePath, v: FilePath)
    ensures Keys(Put(d, k, v)) == Keys(d) + {k}
    decreases |d|
  {
    if |d| > 0 {
      var r := Put(d, k, v);
      if d[0].orig == k {
        assert r[1..] == d[1..];
      } else {
        PutKeys(d[1..], k, v);
        assert r[1..] == Put(d[1..], k, v);
      }
    }
  }

  /** `d[k] = v` keeps the keys distinct. */
  lemma {:induction false} PutDistinct(d: seq<Entry>, k: FilePath, v: FilePath)
    requires KeysDistinct(d)
    ensures KeysDistinct(Put(d, k, v))
    decreases |d|
  {
    if |d| > 0 && d[0].orig != k {
      var rest := Put(d[1..], k, v);
      var r := [d[0]] + rest;
      assert KeysDistinct(d[1..]) by {
        forall i, j | 0 <= i < j < |d[1..]|
          ensures d[1..][i].orig != d[1..][j].orig
        {
          assert d[1..][i] == d[i + 1] && d[1..][j] == d[j + 1];
        }
      }
      PutDistinct(d[1..], k, v);
      PutKeys(d[1..], k, v);
      forall j | 0 <= j < |rest|
        ensures rest[j].orig != d[0].orig
      {
        KeysHas(rest, j);
        if rest[j].orig != k {
          var m := KeysWitness(d[1..], rest[j].orig);
          assert d[m + 1].orig == rest[j].orig;
        }
      }
      forall i, j | 0 <= i < j < |r|
        ensures r[i].orig != r[j].orig
      {
        if i == 0 {
          assert r[j] == rest[j - 1];
        } else {
          assert r[i] == rest[i - 1] && r[j] == rest[j - 1];
        }
      }
    } else if |d| > 0 {
      var r := Put(d, k, v);
      forall i, j | 0 <= i < j < |r|
        ensures r[i].orig != r[j].orig
      {
        assert r[i].orig == d[i].orig && r[j].orig == d[j].orig;
      }
    }
  }

  /** The only item `d[k] = v` brings in is `k: v`. */
  lemma {:induction false} PutItems(d: seq<Entry>, k: FilePath, v: FilePath)
    ensures forall e :: e in Put(d, k, v) ==> e in d || e == Entry(k, v)
    decreases |d|
  {
    if |d| > 0 {
      if d[0].orig == k {
        forall e | e in Put(d, k, v) ensures e in d || e == Entry(k, v) {
          if e != Entry(k, v) {
            assert e in d[1..];
          }
        }
      } else {
        PutItems(d[1..], k, v);
        forall e | e in Put(d, k, v) ensures e in d || e == Entry(k, v) {
          if e != d[0] {
            assert e in Put(d[1..], k, v);
            if e != Entry(k, v) {
              assert e in d[1..];
            }
          }
        }
      }
    }
  }

  /** Reading back what was stored. */
  lemma {:induction false} LookupPut(d: seq<Entry>, k: FilePath, v: FilePath, k': FilePath)
    ensures Lookup(Put(d, k, v), k') == if k' == k then Some(v) else Lookup(d, k')
    decreases |d|
  {
    if |d| > 0 && d[0].orig != k {
      LookupPut(d[1..], k, v, k');
    }
  }

  /** A new key is appended at the end. */
  lemma {:induction false} PutFresh(d: seq<Entry>, k: FilePath, v: FilePath)
    requires k !in Keys(d)
    ensures Put(d, k, v) == d + [Entry(k, v)]
    decreases |d|
  {
    if |d| > 0 {
      PutFresh(d[1..], k, v);
      assert d == [d[0]] + d[1..];
    }
  }

  /** The dict built by `d[order[k]] = outdir / (names[k] + order[k].suffix)`
      for k in order. */
  function Assign(order: seq<FilePath>, outdir: string, names: seq<string>): seq<Entry>
    requires |names| == |order|
    decreases |order|
  {
    if |order| == 0 then []
    else
      var n := |order| - 1;
      Put(Assign(order[..n], outdir, names[..n]), order[n], FilePath(outdir, names[n], order[n].suffix))
  }

  /** One entry per distinct path, each renamed into `outdir` with its own suffix. */
  lemma {:induction false} AssignShape(order: seq<FilePath>, outdir: string, names: seq<string>)
    requires |names| == |order|
    ensures var d := Assign(order, outdir, names);
            KeysDistinct(d) && (forall p :: p in Keys(d) <==> p in order) &&
            forall e :: e in d ==> e.renamed.dir == outdir && e.renamed.suffix == e.orig.suffix
    decreases |order|
  {
    if |order| > 0 {
      var n := |order| - 1;
      var before := Assign(order[..n], outdir, names[..n]);
      AssignShape(order[..n], outdir, names[..n]);
      var v := FilePath(outdir, names[n], order[n].suffix);
      PutKeys(before, order[n], v);
      PutDistinct(before, order[n], v);
      PutItems(before, order[n], v);
      assert order == order[..n] + [order[n]];
    }
  }

  /** With distinct keys, entry k pairs `order[k]` with `names[k]`. */
  lemma {:induction false} AssignDistinct(order: seq<FilePath>, outdir: string, names: seq<string>)
    requires |names| == |order| && Distinct(order)
    ensures |Assign(order, outdir, names)| == |order|
    ensures forall k :: 0 <= k < |order| ==>
              Assign(order, outdir, names)[k] == Entry(order[k], FilePath(outdir, names[k], order[k].suffix))
    decreases |order|
  {
    if |order| > 0 {
      var n := |order| - 1;
      AssignDistinct(order[..n], outdir, names[..n]);
      var before := Assign(order[..n], outdir, names[..n]);
      AssignShape(order[..n], outdir, names[..n]);
      forall m | 0 <= m < n
        ensures order[..n][m] != order[n]
      {
        assert order[..n][m] == order[m];
      }
      PutFresh(before, order[n], FilePath(outdir, names[n], order[n].suffix));
    }
  }

  /** How `randomize_paths` names the files. */
  datatype NameMode =
    | Sequential(width: nat)        // `name_generator(prefix="video", width=width)`
    | Random(uuids: nat -> string)  // `name_generator(uuid=True)`; the k-th uuid4 hex

  /** The k-th name the generator returns. */
  function NameAt(mode: NameMode, k: nat): string
  {
    match mode
    case Sequential(w) => SeqName("video", k, w)
    case Random(uuids) => UuidName(uuids(k))
  }

  function NamesOf(mode: NameMode, count: nat): (names: seq<string>)
    ensures |names| == count && forall k :: 0 <= k < count ==> names[k] == NameAt(mode, k)
  {
    seq(count, k requires 0 <= k < count => NameAt(mode, k))
  }

  /** `randomize_paths(vid_paths, outdir, sequentialize)` for the given draws. */
  function Randomized(vidPaths: seq<FilePath>, outdir: string, sequentialize: bool,
                      picks: seq<nat>, uuids: nat -> string): Result<seq<Entry>>
    requires ValidPicks(picks, |vidPaths|)
  {
    var order := Shuffled(vidPaths, picks);
    if sequentialize then
      match SeqWidth(|vidPaths|)
      case Failure(e) => Failure(e)
      case Success(w) => Success(Assign(order, outdir, NamesOf(Sequential(w), |order|)))
    else Success(Assign(order, outdir, NamesOf(Random(uuids), |order|)))
  }

  /** Sequential naming of no files fails in `seq_width`; uuid naming never fails. */
  lemma RandomizedFailure(vidPaths: seq<FilePath>, outdir: string, sequentialize: bool,
                          picks: seq<nat>, uuids: nat -> string)
    requires ValidPicks(picks, |vidPaths|)
    ensures Randomized(vidPaths, outdir, sequentialize, picks, uuids).Failure? <==>
            sequentialize && |vidPaths| == 0
    ensures Randomized(vidPaths, outdir, sequentialize, picks, uuids).Failure? ==>
            Randomized(vidPaths, outdir, sequentialize, picks, uuids).error == ValueError
  {
  }

  /** Every input path gets exactly one entry in `outdir`, keeping its suffix. */
  lemma RandomizedShape(vidPaths: seq<FilePath>, outdir: string, sequentialize: bool,
                        picks: seq<nat>, uuids: nat -> string)
    requires ValidPicks(picks, |vidPaths|)
    requires Randomized(vidPaths, outdir, sequentialize, picks, uuids).Success?
    ensures var d := Randomized(vidPaths, outdir, sequentialize, picks, uuids).value;
            KeysDistinct(d) && (forall p :: p in Keys(d) <==> p in vidPaths) &&
            forall e :: e in d ==> e.renamed.dir == outdir && e.renamed.suffix == e.orig.suffix
  {
    var order := Shuffled(vidPaths, picks);
    ShuffledPermutation(vidPaths, picks);
    var names := if sequentialize then NamesOf(Sequential(SeqWidth(|vidPaths|).value), |order|)
                 else NamesOf(Random(uuids), |order|);
    AssignShape(order, outdir, names);
    forall p
      ensures p in order <==> p in vidPaths
    {
      assert p in order <==> p in multiset(order);
      assert p in vidPaths <==> p in multiset(vidPaths);
    }
  }

  /** With sequential names, distinct inputs get distinct outputs, one each. */
  lemma SequentialNamesDistinct(vidPaths: seq<FilePath>, outdir: string, picks: seq<nat>, uuids: nat -> string)
    requires ValidPicks(picks, |vidPaths|) && Distinct(vidPaths) && |vidPaths| > 0
    ensures var d := Randomized(vidPaths, outdir, true, picks, uuids).value;
            |d| == |vidPaths| && forall i, j :: 0 <= i < j < |d| ==> d[i].renamed != d[j].renamed
  {
    var order := Shuffled(vidPaths, picks);
    var w := SeqWidth(|vidPaths|).value;
    var names := NamesOf(Sequential(w), |order|);
    ShuffledDistinct(vidPaths, picks);
    AssignDistinct(order, outdir, names);
    var d := Assign(order, outdir, names);
    forall i, j | 0 <= i < j < |d|
      ensures d[i].renamed != d[j].renamed
    {
      if d[i].renamed == d[j].renamed {
        assert names[i] == names[j];
        SeqNameInjective("video", i, j, w);
      }
    }
  }

  /** `randomize_paths(vid_paths, outdir, sequentialize)` */
  method RandomizePaths(vidPaths: seq<FilePath>, outdir: string, sequentialize: bool,
                        picks: seq<nat>, uuids: nat -> string) returns (r: Result<seq<Entry>>)
    requires ValidPicks(picks, |vidPaths|)
    ensures r == Randomized(vidPaths, outdir, sequentialize, picks, uuids)
  {
    var mode: NameMode := Random(uuids);
    var generator: IncrementingName? := null;
    if sequentialize {
      var width := SeqWidth(|vidPaths|);
      if width.Failure? {
        return Failure(width.error);
      }
      mode := Sequential(width.value);
      generator := new IncrementingName("video", 0, width.value);
    }
    var order := Shuffle(vidPaths, picks);
    var origToRandom := NamePaths(order, outdir, mode, generator);
    r := Success(origToRandom);
  }

  /** The loop of `randomize_paths`: one generated name per path, in the
      shuffled order. The generator is the counter closure in sequential
      mode and absent (uuid names) otherwise. */
  method NamePaths(order: seq<FilePath>, outdir: string, mode: NameMode, generator: IncrementingName?)
    returns (origToRandom: seq<Entry>)
    requires mode.Sequential? <==> generator != null
    requires generator != null ==>
               generator.prefix == "video" && mode.width == generator.width && generator.n == -1
    modifies generator
    ensures origToRandom == Assign(order, outdir, NamesOf(mode, |order|))
  {
    ghost var names := NamesOf(mode, |order|);
    origToRandom := [];
    var k := 0;
    while k < |order|
      invariant 0 <= k <= |order|
      invariant origToRandom == Assign(order[..k], outdir, names[..k])
      invariant generator != null ==>
                  generator.prefix == "video" && mode.width == generator.width && generator.n == k - 1
    {
      var name;
      if generator != null {
        name := generator.Next();
      } else {
        name := UuidName(mode.uuids(k));
      }
      assert name == names[k];
      assert order[..k + 1][..k] == order[..k] && names[..k + 1][..k] == names[..k];
      origToRandom := Put(origToRandom, order[k], FilePath(outdir, name, order[k].suffix));
      k := k + 1;
    }
    assert order[..k] == order && names[..k] == names;
  }

  /** `transpose_paths(paths, outdir)`: each path under `outdir` with its own name. */
  function TransposePaths(paths: seq<FilePath>, outdir: string): (d: seq<Entry>)
  {
    Assign(paths, outdir, seq(|paths|, k requires 0 <= k < |paths| => paths[k].stem))
  }

  lemma TransposeShape(paths: seq<FilePath>, outdir: string)
    ensures var d := TransposePaths(paths, outdir);
            KeysDistinct(d) && (forall p :: p in Keys(d) <==> p in paths) &&
            forall k :: Lookup(d, k).Some? ==> Lookup(d, k).value == FilePath(outdir, k.stem, k.suffix)
  {
    var stems := seq(|paths|, k requires 0 <= k < |paths| => paths[k].stem);
    AssignShape(paths, outdir, stems);
    AssignStems(paths, outdir, stems);
  }

  lemma {:induction false} AssignStems(order: seq<FilePath>, outdir: string, names: seq<string>)
    requires |names| == |order| && forall k :: 0 <= k < |order| ==> names[k] == order[k].stem
    ensures forall k :: Lookup(Assign(order, outdir, names), k).Some? ==>
              Lookup(Assign(order, outdir, names), k).value == FilePath(outdir, k.stem, k.suffix)
    decreases |order|
  {
    if |order| > 0 {
      var n := |order| - 1;
      AssignStems(order[..n], outdir, names[..n]);
      forall k
        ensures Lookup(Assign(order, outdir, names), k).Some? ==>
                Lookup(Assign(order, outdir, names), k).value == FilePath(outdir, k.stem, k.suffix)
      {
        LookupPut(Assign(order[..n], outdir, names[..n]), order[n], FilePath(outdir, names[n], order[n].suffix), k);
      }
    }
  }

  // ---------------------------------------------------------------------------
  // Finding the videos
  // ---------------------------------------------------------------------------

  /** `is_video_path(path)`: a video suffix in any letter case, and a file. */
  predicate IsVideoPath(p: FilePath, files: map<FilePath, Content>)
  {
    Browser.Lower(p.suffix) in Browser.VideoExtensions && p in files
  }

  /** `get_video_paths(vid_dir)`, for the paths `rglob("*")` lists. */
  function VideoPaths(found: seq<FilePath>, files: map<FilePath, Content>): seq<FilePath>
  {
    if |found| == 0 then []
    else (if IsVideoPath(found[0], files) then [found[0]] else []) + VideoPaths(found[1..], files)
  }

  lemma {:induction false} VideoPathsMembers(found: seq<FilePath>, files: map<FilePath, Content>)
    ensures forall p :: p in VideoPaths(found, files) <==> p in found && IsVideoPath(p, files)
    ensures Distinct(found) ==> Distinct(VideoPaths(found, files))
    decreases |found|
  {
    if |found| > 0 {
      VideoPathsMembers(found[1..], files);
      assert found == [found[0]] + found[1..];
      if Distinct(found) {
        assert Distinct(found[1..]) by {
          forall i, j | 0 <= i < j < |found[1..]| ensures found[1..][i] != found[1..][j] {
            assert found[1..][i] == found[i + 1] && found[1..][j] == found[j + 1];
          }
        }
        var rest := VideoPaths(found[1..], files);
        forall m | 0 <= m < |found[1..]|
          ensures found[1..][m] != found[0]
        {
          assert found[1..][m] == found[m + 1];
        }
        assert found[0] !in rest;
        var r := VideoPaths(found, files);
        forall i, j | 0 <= i < j < |r| ensures r[i] != r[j] {
          if IsVideoPath(found[0], files) {
            assert r == [found[0]] + rest;
            if i == 0 {
              assert r[j] == rest[j - 1];
            } else {
              assert r[i] == rest[i - 1] && r[j] == rest[j - 1];
            }
          } else {
            assert r == rest;
          }
        }
      }
    }
  }

  // ---------------------------------------------------------------------------
  // Name translation file
  // ---------------------------------------------------------------------------

  const Header: Row := ["original", "anonymized"]

  /** An existing file is kept as it is; otherwise it is created with the header. */
  function SetupFiles(files: map<FilePath, Content>, tf: FilePath): (r: map<FilePath, Content>)
    ensures tf in r && (tf in files ==> r == files)
    ensures tf !in files ==> r[tf] == Csv([Header]) && forall p :: p != tf ==> (p in r <==> p in files)
    ensures forall p :: p in files ==> p in r && r[p] == files[p]
  {
    if tf in files then files else files[tf := Csv([Header])]
  }

  lemma SetupIdempotent(files: map<FilePath, Content>, tf: FilePath)
    ensures SetupFiles(SetupFiles(files, tf), tf) == SetupFiles(files, tf)
  {
  }

  /** `setup_name_translation_file(name_translation_filename)` */
  method SetupNameTranslationFile(host: Host, tf: FilePath) returns (p: FilePath)
    modifies host
    ensures p == tf && host.files == SetupFiles(old(host.files), tf) && host.trace == old(host.trace)
  {
    if tf !in host.files {
      host.files := host.files[tf := Csv([Header])];
    }
    p := tf;
  }

  /** `csv.writer(open(tf, "a")).writerow(row)`; a file that is not a CSV
      log keeps its (unmodelled) contents. */
  function AppendRow(files: map<FilePath, Content>, tf: FilePath, row: Row): map<FilePath, Content>
  {
    if tf !in files then files[tf := Csv([row])]
    else match files[tf]
      case Csv(rows) => files[tf := Csv(rows + [row])]
      case Media => files
  }

  // ---------------------------------------------------------------------------
  // Stripping metadata
  // ---------------------------------------------------------------------------

  /** The ffmpeg command of `strip_metadata`: copy every video and audio
      stream, drop global, per-stream and chapter metadata and dispositions. */
  function StripArgs(bin: string, input: FilePath, output: FilePath): seq<string>
  {
    [bin, "-nostdin", "-i", input.ToString(), "-map", "0:v", "-map", "0:a?", "-c", "copy",
     "-map_metadata", "-1", "-map_metadata:s:v", "-1", "-map_metadata:s:a", "-1",
     "-map_chapters", "-1", "-disposition", "0", output.ToString()]
  }

  /** The value of an option, read after the lone "-nostdin" flag. */
  function StripOption(argv: seq<string>, flag: string): Option<string>
  {
    match OptionIndex(argv, flag, 2)
    case None => None
    case Some(k) => Some(argv[k + 1])
  }

  /** Input, the streams kept (every video stream, audio when present), stream copy, output. */
  lemma StripReading(bin: string, input: FilePath, output: FilePath)
    ensures var a := StripArgs(bin, input, output);
      a[0] == bin && a[1] == "-nostdin" &&
      StripOption(a, "-i") == Some(input.ToString()) &&
      StripOption(a, "-map") == Some("0:v") &&
      OptionIndex(a, "-map", 6) == Some(6) && a[7] == "0:a?" &&
      StripOption(a, "-c") == Some("copy") &&
      OutputOf(a) == Some(output.ToString())
  {
    StripReadingStreams(bin, input, output);
    StripReadingCopy(bin, input, output);
  }

  lemma StripReadingStreams(bin: string, input: FilePath, output: FilePath)
    ensures var a := StripArgs(bin, input, output);
      StripOption(a, "-i") == Some(input.ToString()) &&
      StripOption(a, "-map") == Some("0:v")
  {
    var a := StripArgs(bin, input, output);
    OptionIndexAt(a, "-i", 2, 2);
    OptionIndexAt(a, "-map", 2, 4);
  }

  lemma StripReadingCopy(bin: string, input: FilePath, output: FilePath)
    ensures var a := StripArgs(bin, input, output);
      OptionIndex(a, "-map", 6) == Some(6) &&
      StripOption(a, "-c") == Some("copy") &&
      OutputOf(a) == Some(output.ToString())
  {
    var a := StripArgs(bin, input, output);
    OptionIndexAt(a, "-map", 6, 6);
    OptionIndexAt(a, "-c", 2, 8);
  }

  lemma StripDropsMetadata(bin: string, input: FilePath, output: FilePath)
    ensures var a := StripArgs(bin, input, output);
      StripOption(a, "-map_metadata") == Some("-1") &&
      StripOption(a, "-map_metadata:s:v") == Some("-1") &&
      StripOption(a, "-map_metadata:s:a") == Some("-1") &&
      StripOption(a, "-map_chapters") == Some("-1") &&
      StripOption(a, "-disposition") == Some("0")
  {
    StripDropsStreamMetadata(bin, input, output);
    StripDropsChapters(bin, input, output);
  }

  lemma StripDropsStreamMetadata(bin: string, input: FilePath, output: FilePath)
    ensures var a := StripArgs(bin, input, output);
      StripOption(a, "-map_metadata") == Some("-1") &&
      StripOption(a, "-map_metadata:s:v") == Some("-1") &&
      StripOption(a, "-map_metadata:s:a") == Some("-1")
  {
    var a := StripArgs(bin, input, output);
    OptionIndexAt(a, "-map_metadata", 2, 10);
    OptionIndexAt(a, "-map_metadata:s:v", 2, 12);
    OptionIndexAt(a, "-map_metadata:s:a", 2, 14);
  }

  lemma StripDropsChapters(bin: string, input: FilePath, output: FilePath)
    ensures var a := StripArgs(bin, input, output);
      StripOption(a, "-map_chapters") == Some("-1") &&
      StripOption(a, "-disposition") == Some("0")
  {
    var a := StripArgs(bin, input, output);
    OptionIndexAt(a, "-map_chapters", 2, 16);
    OptionIndexAt(a, "-disposition", 2, 18);
  }

  /** What `strip_metadata` returns: the output path, "FAILED", or None. */
  datatype StripResult = Stripped(path: FilePath) | Failed | Nothing

  /** The files once ffmpeg has run: its output, complete or not, if it left one. */
  function AfterRun(files: map<FilePath, Content>, output: FilePath, st: RunStatus): map<FilePath, Content>
  {
    if st.wroteOutput then files[output := Media] else files
  }

  function StripResultOf(files: map<FilePath, Content>, output: FilePath, st: RunStatus): StripResult
  {
    if !st.exitOk then Failed
    else if output in AfterRun(files, output, st) then Stripped(output)
    else Nothing
  }

  function StripFiles(files: map<FilePath, Content>, output: FilePath, st: RunStatus): map<FilePath, Content>
  {
    var f := AfterRun(files, output, st);
    if !st.exitOk && output in f then f - {output} else f
  }

  function StripOps(argv: seq<string>, files: map<FilePath, Content>, output: FilePath, st: RunStatus): seq<Op>
  {
    [Run(argv)] + (if !st.exitOk && output in AfterRun(files, output, st) then [Unlink(output)] else [])
  }

  /** A failed run leaves no output behind, a stripped path is the output
      and exists, and no other file is touched. */
  lemma StripContract(files: map<FilePath, Content>, output: FilePath, st: RunStatus)
    ensures var r := StripResultOf(files, output, st);
            var f := StripFiles(files, output, st);
            (r == Failed <==> !st.exitOk) &&
            (r == Failed ==> output !in f) &&
            (r.Stripped? ==> r.path == output && output in f) &&
            (r == Nothing ==> output !in f) &&
            forall p :: p != output ==> (p in f <==> p in files) && (p in f ==> f[p] == files[p])
  {
  }

  /** `strip_metadata(input_vid, output_vid)` */
  method StripMetadata(host: Host, input: FilePath, output: FilePath) returns (r: StripResult)
    modifies host
    ensures var argv := StripArgs(host.ffmpegBin, input, output);
            var st := host.status(argv);
            r == StripResultOf(old(host.files), output, st) &&
            host.files == StripFiles(old(host.files), output, st) &&
            host.trace == old(host.trace) + StripOps(argv, old(host.files), output, st)
  {
    var command := StripArgs(host.ffmpegBin, input, output);
    host.trace := host.trace + [Run(command)];
    var st := host.status(command);
    if st.wroteOutput {
      host.files := host.files[output := Media];
    }
    if !st.exitOk {
      if output in host.files {
        host.files := host.files - {output};
        host.trace := host.trace + [Unlink(output)];
      }
      return Failed;
    }
    r := if output in host.files then Stripped(output) else Nothing;
  }

  // ---------------------------------------------------------------------------
  // anonymize
  // ---------------------------------------------------------------------------

  /** The log row of one video: the two stems. */
  function LogRow(e: Entry): Row
  {
    [e.orig.stem, e.renamed.stem]
  }

  /** The files after one video: stripped, then logged. */
  function AnonStep(bin: string, status: seq<string> -> RunStatus, files: map<FilePath, Content>,
                    e: Entry, tf: FilePath): map<FilePath, Content>
  {
    var st := status(StripArgs(bin, e.orig, e.renamed));
    AppendRow(StripFiles(files, e.renamed, st), tf, LogRow(e))
  }

  function AnonFiles(bin: string, status: seq<string> -> RunStatus, files: map<FilePath, Content>,
                     entries: seq<Entry>, tf: FilePath): map<FilePath, Content>
    decreases |entries|
  {
    if |entries| == 0 then files
    else AnonFiles(bin, status, AnonStep(bin, status, files, entries[0], tf), entries[1..], tf)
  }

  function AnonOps(bin: string, status: seq<string> -> RunStatus, files: map<FilePath, Content>,
                   entries: seq<Entry>, tf: FilePath): seq<Op>
    decreases |entries|
  {
    if |entries| == 0 then []
    else
      var e := entries[0];
      var argv := StripArgs(bin, e.orig, e.renamed);
      StripOps(argv, files, e.renamed, status(argv)) + [Op.AppendRow(tf, LogRow(e))] +
      AnonOps(bin, status, AnonStep(bin, status, files, e, tf), entries[1..], tf)
  }

  /** `final_name` after the loop: the last strip result, `last` when there is none. */
  function FinalFrom(bin: string, status: seq<string> -> RunStatus, files: map<FilePath, Content>,
                     entries: seq<Entry>, tf: FilePath, last: StripResult): StripResult
    decreases |entries|
  {
    if |entries| == 0 then last
    else
      var e := entries[0];
      var st := status(StripArgs(bin, e.orig, e.renamed));
      FinalFrom(bin, status, AnonStep(bin, status, files, e, tf), entries[1..], tf,
                StripResultOf(files, e.renamed, st))
  }

  /** The entries `anonymize` works through: uuid names for the videos in shuffled order. */
  function AnonEntries(vids: seq<FilePath>, outdir: string, picks: seq<nat>, uuids: nat -> string): seq<Entry>
    requires ValidPicks(picks, |vids|)
  {
    Randomized(vids, outdir, false, picks, uuids).value
  }

  /** `anonymize(video_in_root_dir, video_out_root_dir, name_translation_filename)`,
      for the paths `rglob` lists under the input folder. */
  method Anonymize(host: Host, found: seq<FilePath>, outdir: string, tf: FilePath,
                   picks: seq<nat>, uuids: nat -> string) returns (finalName: StripResult)
    requires ValidPicks(picks, |VideoPaths(found, host.files)|)
    modifies host
    ensures var entries := AnonEntries(VideoPaths(found, old(host.files)), outdir, picks, uuids);
            var f0 := SetupFiles(old(host.files), tf);
            host.trace == old(host.trace) + [MakeDir(outdir)] + AnonOps(host.ffmpegBin, host.status, f0, entries, tf) &&
            host.files == AnonFiles(host.ffmpegBin, host.status, f0, entries, tf) &&
            finalName == FinalFrom(host.ffmpegBin, host.status, f0, entries, tf, Nothing)
  {
    var vidPaths := VideoPaths(found, host.files);
    host.trace := host.trace + [MakeDir(outdir)];
    var tfPath := SetupNameTranslationFile(host, tf);
    var vidMap := RandomizePaths(vidPaths, outdir, false, picks, uuids);
    var entries := vidMap.value;
    ghost var f0 := host.files;
    ghost var t0 := host.trace;
    finalName := Nothing;
    var k := 0;
    while k < |entries|
      invariant 0 <= k <= |entries|
      invariant AnonFiles(host.ffmpegBin, host.status, host.files, entries[k..], tf) ==
                AnonFiles(host.ffmpegBin, host.status, f0, entries, tf)
      invariant host.trace + AnonOps(host.ffmpegBin, host.status, host.files, entries[k..], tf) ==
                t0 + AnonOps(host.ffmpegBin, host.status, f0, entries, tf)
      invariant FinalFrom(host.ffmpegBin, host.status, host.files, entries[k..], tf, finalName) ==
                FinalFrom(host.ffmpegBin, host.status, f0, entries, tf, Nothing)
    {
      var e := entries[k];
      ghost var before := host.files;
      ghost var traceBefore := host.trace;
      AnonUnfold(host.ffmpegBin, host.status, before, entries, k, tf, finalName);
      ghost var argv := StripArgs(host.ffmpegBin, e.orig, e.renamed);
      ghost var step := StripOps(argv, before, e.renamed, host.status(argv)) + [Op.AppendRow(tf, LogRow(e))];
      ghost var rest := AnonOps(host.ffmpegBin, host.status, AnonStep(host.ffmpegBin, host.status, before, e, tf),
                                entries[k + 1..], tf);
      finalName := StripAndLog(host, e, tfPath);
      assert host.trace == traceBefore + step;
      StepTrace(traceBefore, step, rest, t0 + AnonOps(host.ffmpegBin, host.status, f0, entries, tf));
      k := k + 1;
    }
  }

  /** The body of the loop in `anonymize`: strip one video, then log its two stems. */
  method StripAndLog(host: Host, e: Entry, tf: FilePath) returns (r: StripResult)
    modifies host
    ensures var argv := StripArgs(host.ffmpegBin, e.orig, e.renamed);
            var st := host.status(argv);
            r == StripResultOf(old(host.files), e.renamed, st) &&
            host.files == AnonStep(host.ffmpegBin, host.status, old(host.files), e, tf) &&
            host.trace == old(host.trace) + (StripOps(argv, old(host.files), e.renamed, st) + [Op.AppendRow(tf, LogRow(e))])
  {
    r := StripMetadata(host, e.orig, e.renamed);
    var row := [e.orig.stem, e.renamed.stem];
    host.files := AppendRow(host.files, tf, row);
    host.trace := host.trace + [Op.AppendRow(tf, row)];
  }

  /** One loop step as the spec functions see it. */
  lemma AnonUnfold(bin: string, status: seq<string> -> RunStatus, files: map<FilePath, Content>,
                   entries: seq<Entry>, k: nat, tf: FilePath, last: StripResult)
    requires k < |entries|
    ensures var e := entries[k];
            var argv := StripArgs(bin, e.orig, e.renamed);
            var next := AnonStep(bin, status, files, e, tf);
            AnonFiles(bin, status, files, entries[k..], tf) == AnonFiles(bin, status, next, entries[k + 1..], tf) &&
            AnonOps(bin, status, files, entries[k..], tf) ==
              StripOps(argv, files, e.renamed, status(argv)) + [Op.AppendRow(tf, LogRow(e))] +
              AnonOps(bin, status, next, entries[k + 1..], tf) &&
            FinalFrom(bin, status, files, entries[k..], tf, last) ==
              FinalFrom(bin, status, next, entries[k + 1..], tf, StripResultOf(files, e.renamed, status(argv)))
  {
    assert entries[k..][0] == entries[k];
    assert entries[k..][1..] == entries[k + 1..];
  }

  lemma StepTrace(t: seq<Op>, step: seq<Op>, rest: seq<Op>, whole: seq<Op>)
    requires t + (step + rest) == whole
    ensures (t + step) + rest == whole
  {
  }

  /** The rows `anonymize` logs: one per entry, the two stems and nothing else. */
  function LogRows(entries: seq<Entry>): (rows: seq<Row>)
    ensures |rows| == |entries|
    ensures forall k :: 0 <= k < |entries| ==> rows[k] == LogRow(entries[k])
  {
    if |entries| == 0 then []
    else
      var rest := LogRows(entries[1..]);
      assert forall k :: 1 <= k < |entries| ==> entries[k] == entries[1..][k - 1];
      [LogRow(entries[0])] + rest
  }

  /** When no video is written over the log file, the log ends up holding its
      earlier rows plus exactly one row per video, whatever ffmpeg did. */
  lemma {:induction false} AnonRows(bin: string, status: seq<string> -> RunStatus, files: map<FilePath, Content>,
                                    entries: seq<Entry>, tf: FilePath, rows0: seq<Row>)
    requires tf in files && files[tf] == Csv(rows0)
    requires forall k :: 0 <= k < |entries| ==> entries[k].renamed != tf
    ensures var f := AnonFiles(bin, status, files, entries, tf);
            tf in f && f[tf] == Csv(rows0 + LogRows(entries))
    decreases |entries|
  {
    if |entries| == 0 {
      assert rows0 + LogRows(entries) == rows0;
    } else {
      var e := entries[0];
      var next := AnonStep(bin, status, files, e, tf);
      AnonStepLog(bin, status, files, e, tf, rows0);
      assert forall k :: 0 <= k < |entries[1..]| ==> entries[1..][k] == entries[k + 1];
      AnonRows(bin, status, next, entries[1..], tf, rows0 + [LogRow(e)]);
      LogRowsCons(entries, rows0);
    }
  }

  lemma LogRowsCons(entries: seq<Entry>, rows0: seq<Row>)
    requires |entries| > 0
    ensures rows0 + LogRows(entries) == (rows0 + [LogRow(entries[0])]) + LogRows(entries[1..])
  {
    var rest := LogRows(entries[1..]);
    assert LogRows(entries) == [LogRow(entries[0])] + rest;
  }

  lemma AnonStepLog(bin: string, status: seq<string> -> RunStatus, files: map<FilePath, Content>,
                    e: Entry, tf: FilePath, rows0: seq<Row>)
    requires tf in files && files[tf] == Csv(rows0) && e.renamed != tf
    ensures var next := AnonStep(bin, status, files, e, tf);
            tf in next && next[tf] == Csv(rows0 + [LogRow(e)])
  {
    var st := status(StripArgs(bin, e.orig, e.renamed));
    var stripped := StripFiles(files, e.renamed, st);
    assert tf in stripped && stripped[tf] == files[tf];
  }

  /** A fresh log: the header, then one row per video. */
  lemma FreshLog(bin: string, status: seq<string> -> RunStatus, files: map<FilePath, Content>,
                 entries: seq<Entry>, tf: FilePath)
    requires tf !in files
    requires forall k :: 0 <= k < |entries| ==> entries[k].renamed != tf
    ensures var f := AnonFiles(bin, status, SetupFiles(files, tf), entries, tf);
            tf in f && f[tf] == Csv([Header] + LogRows(entries))
  {
    AnonRows(bin, status, SetupFiles(files, tf), entries, tf, [Header]);
  }

  /** With at least one video the result is what the strips decide: the
      initial value never shows through. */
  lemma {:induction false} FinalIsLast(bin: string, status: seq<string> -> RunStatus, files: map<FilePath, Content>,
                                       entries: seq<Entry>, tf: FilePath, a: StripResult, b: StripResult)
    requires |entries| > 0
    ensures FinalFrom(bin, status, files, entries, tf, a) == FinalFrom(bin, status, files, entries, tf, b)
    decreases |entries|
  {
    if |entries| > 1 {
      var e := entries[0];
      FinalIsLast(bin, status, AnonStep(bin, status, files, e, tf), entries[1..], tf,
                  StripResultOf(files, e.renamed, status(StripArgs(bin, e.orig, e.renamed))),
                  StripResultOf(files, e.renamed, status(StripArgs(bin, e.orig, e.renamed))));
    }
  }

  /** The final result is one of the strip results, never a logged name. */
  lemma {:induction false} FinalIsStripResult(bin: string, status: seq<string> -> RunStatus, files: map<FilePath, Content>,
                                              entries: seq<Entry>, tf: FilePath, last: StripResult)
    ensures var r := FinalFrom(bin, status, files, entries, tf, last);
            r == last || r == Failed || r == Nothing || exists e :: e in entries && r == Stripped(e.renamed)
    decreases |entries|
  {
    if |entries| > 0 {
      var e := entries[0];
      var st := status(StripArgs(bin, e.orig, e.renamed));
      FinalIsStripResult(bin, status, AnonStep(bin, status, files, e, tf), entries[1..], tf,
                         StripResultOf(files, e.renamed, st));
      var r := FinalFrom(bin, status, files, entries, tf, last);
      if r.Stripped? && r != last && r != StripResultOf(files, e.renamed, st) {
        var x :| x in entries[1..] && r == Stripped(x.renamed);
        assert x in entries;
      }
      assert e in entries;
    }
  }
}
