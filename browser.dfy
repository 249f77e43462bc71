/** The video browser: which files may be picked, and the ordered list of
    selected videos (the order in which they are later merged). Paths are
    strings, split the way `os.path` splits POSIX paths. */
module Browser {
  import opened Wrappers

  /** `VIDEO_EXTENSIONS` */
  const VideoExtensions: seq<string> :=
    [".mp4", ".avi", ".mkv", ".mov", ".flv", ".wmv", ".mpeg", ".mpg", ".ts", ".m2ts"]

  // ---------------------------------------------------------------------------
  // Path pieces
  // ---------------------------------------------------------------------------

  function LowerChar(c: char): char
  {
    if 'A' <= c <= 'Z' then (c as int + 32) as char else c
  }

  /** `str.lower()` on ASCII letters. */
  function Lower(s: string): (r: string)
    ensures |r| == |s| && forall i :: 0 <= i < |s| ==> r[i] == LowerChar(s[i])
  {
    seq(|s|, i requires 0 <= i < |s| => LowerChar(s[i]))
  }

  /** Where the last component of `p` starts: just past its last '/'. */
  function BaseStart(p: string): (k: nat)
    ensures k <= |p| && (k > 0 ==> p[k - 1] == '/')
    ensures forall j :: k <= j < |p| ==> p[j] != '/'
  {
    if |p| == 0 then 0
    else if p[|p| - 1] == '/' then |p|
    else BaseStart(p[..|p| - 1])
  }

  /** `os.path.basename(p)` */
  function Basename(p: string): (b: string)
    ensures '/' !in b
  {
    p[BaseStart(p)..]
  }

  /** Index of the last '.' in `s`. */
  function LastDot(s: string): (d: Option<nat>)
    ensures d.Some? ==> d.value < |s| && s[d.value] == '.' && forall j :: d.value < j < |s| ==> s[j] != '.'
    ensures d.None? ==> forall j :: 0 <= j < |s| ==> s[j] != '.'
  {
    if |s| == 0 then None
    else if s[|s| - 1] == '.' then Some(|s| - 1)
    else LastDot(s[..|s| - 1])
  }

  /** `os.path.splitext(p)[1]`: the basename from its last '.', unless only
      dots come before that '.' (a hidden file such as ".mp4" has none). */
  function Ext(p: string): (e: string)
    ensures e == "" || e[0] == '.'
  {
    var b := Basename(p);
    match LastDot(b)
    case None => ""
    case Some(d) => if exists j :: 0 <= j < d && b[j] != '.' then b[d..] else ""
  }

  predicate StartsWith(s: string, prefix: string)
  {
    |prefix| <= |s| && s[..|prefix|] == prefix
  }

  /** The filter shared by `add_video_from_tree` and `add_all_videos`: a video
      extension in any letter case, and not an AppleDouble "._" file. */
  predicate Eligible(p: string)
  {
    Lower(Ext(p)) in VideoExtensions && !StartsWith(Basename(p), "._")
  }

  /** The basename of "dir/name" is `name`. */
  lemma {:induction false} BasenameJoin(dir: string, name: string)
    requires '/' !in name
    ensures Basename(dir + "/" + name) == name
    decreases |name|
  {
    var p := dir + "/" + name;
    if |name| == 0 {
      assert p[..|p| - 1] == dir;
    } else {
      var shorter := name[..|name| - 1];
      assert p[..|p| - 1] == dir + "/" + shorter;
      assert name[|name| - 1] in name;
      BasenameJoin(dir, shorter);
    }
  }

  /** The last '.' of "stem.ext" is the one after `stem` when `ext` has none. */
  lemma {:induction false} LastDotJoin(stem: string, ext: string)
    requires '.' !in ext
    ensures LastDot(stem + "." + ext) == Some(|stem|)
    decreases |ext|
  {
    var s := stem + "." + ext;
    if |ext| > 0 {
      var shorter := ext[..|ext| - 1];
      assert s[..|s| - 1] == stem + "." + shorter;
      assert ext[|ext| - 1] in ext;
      LastDotJoin(stem, shorter);
    }
  }

  /** The extension of "dir/stem.ext" is ".ext", when the stem is not all dots. */
  lemma ExtJoin(dir: string, stem: string, ext: string)
    requires '/' !in stem && '/' !in ext && '.' !in ext
    requires exists j :: 0 <= j < |stem| && stem[j] != '.'
    ensures Ext(dir + "/" + stem + "." + ext) == "." + ext
  {
    var name := stem + "." + ext;
    assert '/' !in name;
    assert dir + "/" + stem + "." + ext == dir + "/" + name;
    BasenameJoin(dir, name);
    LastDotJoin(stem, ext);
    var j :| 0 <= j < |stem| && stem[j] != '.';
    assert name[j] != '.';
    assert name[|stem|..] == "." + ext;
  }

  /** A file whose name is only dots and an extension ("x/.mp4") has none. */
  lemma HiddenHasNoExt(dir: string, ext: string)
    requires '/' !in ext && '.' !in ext
    ensures Ext(dir + "/" + "." + ext) == ""
  {
    var name := "." + ext;
    assert "" + "." + ext == name;
    assert '/' !in name;
    assert dir + "/" + "." + ext == dir + "/" + name;
    BasenameJoin(dir, name);
    LastDotJoin("", ext);
  }

  lemma EligibleExample()
    ensures Eligible("/cases/clip.MP4")
  {
    ExampleParts();
    assert Lower(".MP4") == ".mp4";
    assert "clip.MP4"[..2][0] == 'c';
  }

  lemma ExampleParts()
    ensures Ext("/cases/clip.MP4") == ".MP4" && Basename("/cases/clip.MP4") == "clip.MP4"
  {
    assert "clip"[0] != '.';
    ExtJoin("/cases", "clip", "MP4");
    assert "/cases" + "/" + "clip" + "." + "MP4" == "/cases/clip.MP4";
    BasenameJoin("/cases", "clip.MP4");
    assert "/cases" + "/" + "clip.MP4" == "/cases/clip.MP4";
  }

  lemma AppleDoubleExample()
    ensures !Eligible("/cases/._clip.mp4")
  {
    BasenameJoin("/cases", "._clip.mp4");
    assert "/cases" + "/" + "._clip.mp4" == "/cases/._clip.mp4";
    assert StartsWith("._clip.mp4", "._");
  }

  lemma HiddenExample()
    ensures !Eligible("/cases/.mp4")
  {
    HiddenHasNoExt("/cases", "mp4");
    assert "/cases" + "/" + "." + "mp4" == "/cases/.mp4";
    assert Lower("") == "";
  }

  // ---------------------------------------------------------------------------
  // Ordering of paths (`list.sort()` on strings)
  // ---------------------------------------------------------------------------

  /** Lexicographic order by code point. */
  predicate StrLe(a: string, b: string)
    decreases |a|
  {
    if |a| == 0 then true
    else if |b| == 0 then false
    else if a[0] != b[0] then a[0] < b[0]
    else StrLe(a[1..], b[1..])
  }

  lemma {:induction false} StrLeTotal(a: string, b: string)
    ensures StrLe(a, b) || StrLe(b, a)
    decreases |a|
  {
    if |a| > 0 && |b| > 0 && a[0] == b[0] {
      StrLeTotal(a[1..], b[1..]);
    }
  }

  lemma {:induction false} StrLeTrans(a: string, b: string, c: string)
    requires StrLe(a, b) && StrLe(b, c)
    ensures StrLe(a, c)
    decreases |a|
  {
    if |a| > 0 && |b| > 0 && |c| > 0 && a[0] == b[0] && b[0] == c[0] {
      StrLeTrans(a[1..], b[1..], c[1..]);
    }
  }

  predicate Sorted(s: seq<string>)
  {
    forall i, j :: 0 <= i < j < |s| ==> StrLe(s[i], s[j])
  }

  function Insert(x: string, s: seq<string>): (r: seq<string>)
    requires Sorted(s)
    ensures Sorted(r) && multiset(r) == multiset(s) + multiset{x}
    decreases |s|
  {
    if |s| == 0 then [x]
    else if StrLe(x, s[0]) then
      InsertFront(x, s);
      [x] + s
    else
      StrLeTotal(x, s[0]);
      var rest := Insert(x, s[1..]);
      assert s == [s[0]] + s[1..];
      InsertBehind(x, s, rest);
      [s[0]] + rest
  }

  lemma InsertFront(x: string, s: seq<string>)
    requires Sorted(s) && |s| > 0 && StrLe(x, s[0])
    ensures Sorted([x] + s)
  {
    forall j | 0 < j < |s| + 1
      ensures StrLe(([x] + s)[0], ([x] + s)[j])
    {
      if j > 1 {
        StrLeTrans(x, s[0], s[j - 1]);
      }
    }
  }

  lemma InsertBehind(x: string, s: seq<string>, rest: seq<string>)
    requires Sorted(s) && |s| > 0 && StrLe(s[0], x)
    requires Sorted(rest) && multiset(rest) == multiset(s[1..]) + multiset{x}
    ensures Sorted([s[0]] + rest)
  {
    forall j | 0 <= j < |rest|
      ensures StrLe(s[0], rest[j])
    {
      assert rest[j] in multiset(rest);
      if rest[j] != x {
        assert rest[j] in multiset(s[1..]);
        var k :| 0 <= k < |s[1..]| && s[1..][k] == rest[j];
        assert s[k + 1] == rest[j];
      }
    }
    forall i, j | 0 <= i < j < |rest| + 1
      ensures StrLe(([s[0]] + rest)[i], ([s[0]] + rest)[j])
    {
      if i > 0 {
        assert ([s[0]] + rest)[i] == rest[i - 1];
      }
      assert ([s[0]] + rest)[j] == rest[j - 1];
    }
  }

  /** `sorted(paths)` */
  function Sort(s: seq<string>): (r: seq<string>)
    ensures Sorted(r) && multiset(r) == multiset(s)
  {
    if |s| == 0 then []
    else
      assert s == [s[0]] + s[1..];
      Insert(s[0], Sort(s[1..]))
  }

  // ---------------------------------------------------------------------------
  // The selected-videos list
  // ---------------------------------------------------------------------------

  /** A row of the list: its text (the basename), its data (the full path),
      and whether it is selected. */
  datatype Item = Item(text: string, path: string, selected: bool)

  /** The rows that are not selected, in order. */
  function Unselected(items: seq<Item>): (r: seq<Item>)
    ensures |r| <= |items|
    ensures forall j :: 0 <= j < |r| ==> !r[j].selected
  {
    if |items| == 0 then []
    else (if items[0].selected then [] else [items[0]]) + Unselected(items[1..])
  }

  lemma {:induction false} UnselectedAppend(a: seq<Item>, b: seq<Item>)
    ensures Unselected(a + b) == Unselected(a) + Unselected(b)
    decreases |a|
  {
    if |a| == 0 {
      assert a + b == b;
    } else {
      assert (a + b)[1..] == a[1..] + b;
      UnselectedAppend(a[1..], b);
    }
  }

  function FirstSelected(items: seq<Item>): (r: Option<nat>)
    ensures r.Some? ==> r.value < |items| && items[r.value].selected
    ensures r.None? ==> forall j :: 0 <= j < |items| ==> !items[j].selected
  {
    if |items| == 0 then None
    else if items[0].selected then Some(0)
    else match FirstSelected(items[1..])
      case None => None
      case Some(k) => Some(k + 1)
  }

  lemma {:induction false} NoneSelected(items: seq<Item>)
    requires forall j :: 0 <= j < |items| ==> !items[j].selected
    ensures Unselected(items) == items
    decreases |items|
  {
    if |items| > 0 {
      NoneSelected(items[1..]);
      assert items == [items[0]] + items[1..];
    }
  }

  lemma UnselectedCons(x: Item, rest: seq<Item>)
    ensures Unselected([x] + rest) == (if x.selected then [] else [x]) + Unselected(rest)
  {
    assert ([x] + rest)[1..] == rest;
  }

  /** Taking a selected row leaves the unselected rows as they were. */
  lemma TakeSelected(items: seq<Item>, r: nat)
    requires r < |items| && items[r].selected
    ensures Unselected(items[..r] + items[r + 1..]) == Unselected(items)
  {
    var front, back := items[..r], items[r + 1..];
    assert items[r..] == [items[r]] + back;
    assert items == front + items[r..];
    calc {
      Unselected(items);
      { UnselectedAppend(front, items[r..]); }
      Unselected(front) + Unselected([items[r]] + back);
      { UnselectedCons(items[r], back); }
      Unselected(front) + Unselected(back);
      { UnselectedAppend(front, back); }
      Unselected(front + back);
    }
  }

  predicate HasText(items: seq<Item>, text: string)
  {
    exists j :: 0 <= j < |items| && items[j].text == text
  }

  lemma HasTextStep(items: seq<Item>, j: nat, text: string)
    requires j < |items|
    ensures HasText(items[..j + 1], text) <==> HasText(items[..j], text) || items[j].text == text
  {
    assert items[..j + 1] == items[..j] + [items[j]];
    if HasText(items[..j + 1], text) && items[j].text != text {
      var k :| 0 <= k < j + 1 && items[..j + 1][k].text == text;
      assert items[..j][k].text == text;
    }
  }

  lemma AppendKeepsDistinct(items: seq<Item>, x: Item)
    requires !HasText(items, x.text)
    ensures TextsDistinct(items) ==> TextsDistinct(items + [x])
  {
  }

  /** No two rows show the same file name. */
  predicate TextsDistinct(items: seq<Item>)
  {
    forall i, j :: 0 <= i < j < |items| ==> items[i].text != items[j].text
  }

  /** A cell of the file tree: its column and the path it stands for. */
  datatype TreeIndex = TreeIndex(column: int, path: string)

  /** The first column-0 cell among the selected ones. */
  function FirstNameCell(indexes: seq<TreeIndex>): (r: Option<nat>)
    ensures r.Some? ==> r.value < |indexes| && indexes[r.value].column == 0 &&
                        forall j :: 0 <= j < r.value ==> indexes[j].column != 0
    ensures r.None? ==> forall j :: 0 <= j < |indexes| ==> indexes[j].column != 0
  {
    if |indexes| == 0 then None
    else if indexes[0].column == 0 then Some(0)
    else match FirstNameCell(indexes[1..])
      case None => None
      case Some(k) => Some(k + 1)
  }

  /** The files `os.walk` lists, kept when eligible, in the order visited. */
  function EligibleOf(walked: seq<string>): seq<string>
  {
    if |walked| == 0 then []
    else (if Eligible(walked[0]) then [walked[0]] else []) + EligibleOf(walked[1..])
  }

  lemma {:induction false} EligibleOfMembers(walked: seq<string>)
    ensures forall p :: p in EligibleOf(walked) <==> p in walked && Eligible(p)
    decreases |walked|
  {
    if |walked| > 0 {
      EligibleOfMembers(walked[1..]);
      assert walked == [walked[0]] + walked[1..];
    }
  }

  /** One row per path, showing its basename. */
  function RowsFor(paths: seq<string>): (r: seq<Item>)
    ensures |r| == |paths|
    ensures forall j :: 0 <= j < |paths| ==> r[j] == Item(Basename(paths[j]), paths[j], false)
  {
    seq(|paths|, j requires 0 <= j < |paths| => Item(Basename(paths[j]), paths[j], false))
  }

  class VideoBrowser {
    /** `selected_videos_list`, top to bottom. */
    var items: seq<Item>
    /** `os.path.isfile` */
    const isFile: string -> bool

    constructor (isFile: string -> bool)
      ensures items == [] && this.isFile == isFile
    {
      items := [];
      this.isFile := isFile;
    }

    /** A double-click in the tree: an eligible file whose name is not yet
        listed goes to the end of the list. */
    method AddVideoFromTree(filePath: string)
      modifies this
      ensures var name := Basename(filePath);
              if isFile(filePath) && Eligible(filePath) && !HasText(old(items), name)
              then items == old(items) + [Item(name, filePath, false)]
              else items == old(items)
      ensures TextsDistinct(old(items)) ==> TextsDistinct(items)
    {
      if isFile(filePath) && Eligible(filePath) {
        var fileName := Basename(filePath);
        var current := items;
        var found := false;
        var j := 0;
        while j < |current|
          modifies {}
          invariant 0 <= j <= |current|
          invariant found == HasText(current[..j], fileName)
        {
          HasTextStep(current, j, fileName);
          if current[j].text == fileName {
            found := true;
          }
          j := j + 1;
        }
        assert current[..j] == current;
        if !found {
          AppendKeepsDistinct(current, Item(fileName, filePath, false));
          items := current + [Item(fileName, filePath, false)];
        }
      }
    }

    /** "Add": only the first selected cell of the name column counts. */
    method AddSingleVideo(indexes: seq<TreeIndex>)
      modifies this
      ensures FirstNameCell(indexes).None? ==> items == old(items)
      ensures FirstNameCell(indexes).Some? ==>
                var p := indexes[FirstNameCell(indexes).value].path;
                var name := Basename(p);
                if isFile(p) && Eligible(p) && !HasText(old(items), name)
                then items == old(items) + [Item(name, p, false)]
                else items == old(items)
    {
      var k := 0;
      while k < |indexes|
        invariant 0 <= k <= |indexes|
        invariant forall j :: 0 <= j < k ==> indexes[j].column != 0
      {
        if indexes[k].column == 0 {
          assert FirstNameCell(indexes) == Some(k) by {
            FirstNameCellAt(indexes, k);
          }
          AddVideoFromTree(indexes[k].path);
          return;
        }
        k := k + 1;
      }
    }

    /** "Add all": every eligible file under the root, sorted by full path,
        replacing the list. */
    method AddAllVideos(walked: seq<string>)
      modifies this
      ensures items == RowsFor(Sort(EligibleOf(walked)))
    {
      var allVideos := CollectEligible(walked);
      var sorted := Sort(allVideos);
      items := MakeRows(sorted);
    }

    /** "Remove": takes every selected row out of the list. */
    method RemoveSelectedVideos()
      modifies this
      ensures items == Unselected(old(items))
    {
      var r := FirstSelected(items);
      while r.Some?
        invariant Unselected(items) == Unselected(old(items))
        invariant r == FirstSelected(items)
        decreases |items|
      {
        TakeSelected(items, r.value);
        items := items[..r.value] + items[r.value + 1..];
        r := FirstSelected(items);
      }
      NoneSelected(items);
    }
  }

  /** The walk loop of `add_all_videos`. */
  method CollectEligible(walked: seq<string>) returns (allVideos: seq<string>)
    ensures allVideos == EligibleOf(walked)
  {
    allVideos := [];
    var j := 0;
    while j < |walked|
      invariant 0 <= j <= |walked|
      invariant allVideos + EligibleOf(walked[j..]) == EligibleOf(walked)
    {
      var here := if Eligible(walked[j]) then [walked[j]] else [];
      CollectStep(walked, j, allVideos, here);
      allVideos := allVideos + here;
      j := j + 1;
    }
    assert walked[j..] == [];
  }

  lemma CollectStep(walked: seq<string>, j: nat, acc: seq<string>, here: seq<string>)
    requires j < |walked| && acc + EligibleOf(walked[j..]) == EligibleOf(walked)
    requires here == if Eligible(walked[j]) then [walked[j]] else []
    ensures (acc + here) + EligibleOf(walked[j + 1..]) == EligibleOf(walked)
  {
    EligibleOfStep(walked, j);
    assert acc + (here + EligibleOf(walked[j + 1..])) == (acc + here) + EligibleOf(walked[j + 1..]);
  }

  lemma EligibleOfStep(walked: seq<string>, j: nat)
    requires j < |walked|
    ensures EligibleOf(walked[j..]) ==
            (if Eligible(walked[j]) then [walked[j]] else []) + EligibleOf(walked[j + 1..])
  {
    assert walked[j..][1..] == walked[j + 1..];
  }

  /** The rows `add_all_videos` inserts, one per sorted path. */
  method MakeRows(sorted: seq<string>) returns (rows: seq<Item>)
    ensures rows == RowsFor(sorted)
  {
    rows := [];
    var k := 0;
    while k < |sorted|
      invariant 0 <= k <= |sorted|
      invariant |rows| == k
      invariant forall m :: 0 <= m < k ==> rows[m] == Item(Basename(sorted[m]), sorted[m], false)
    {
      rows := rows + [Item(Basename(sorted[k]), sorted[k], false)];
      k := k + 1;
    }
  }

  lemma {:induction false} FirstNameCellAt(indexes: seq<TreeIndex>, k: nat)
    requires k < |indexes| && indexes[k].column == 0
    requires forall j :: 0 <= j < k ==> indexes[j].column != 0
    ensures FirstNameCell(indexes) == Some(k)
    decreases k
  {
    if k > 0 {
      FirstNameCellAt(indexes[1..], k - 1);
    }
  }

  /** "Add all" lists exactly the eligible files, each once per visit, in
      path order, each row showing its basename. */
  lemma AddAllContents(walked: seq<string>)
    ensures var rows := RowsFor(Sort(EligibleOf(walked)));
            Sorted(seq(|rows|, j requires 0 <= j < |rows| => rows[j].path)) &&
            multiset(seq(|rows|, j requires 0 <= j < |rows| => rows[j].path)) == multiset(EligibleOf(walked)) &&
            forall j :: 0 <= j < |rows| ==> rows[j].text == Basename(rows[j].path) && Eligible(rows[j].path)
  {
    var sorted := Sort(EligibleOf(walked));
    var rows := RowsFor(sorted);
    var paths := seq(|rows|, j requires 0 <= j < |rows| => rows[j].path);
    assert paths == sorted;
    forall j | 0 <= j < |rows|
      ensures Eligible(rows[j].path)
    {
      assert sorted[j] in multiset(sorted);
      EligibleOfMembers(walked);
    }
  }
}
