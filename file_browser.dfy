/**
 * The view state of nfui's file browser component (nfui/static/js/file_browser.js): the
 * breadcrumb parts of the current path, pagination, the comparator of the name, numeric-name
 * and size sort orders, the page and sort controls, and the unit chosen to show a size.
 * What the server answers to a directory listing is an input.
 */
module FileBrowser {

  import opened Wrappers
  import opened Strings

  datatype Kind = Directory | File

  /** A listed entry, with what the sort orders and the size column read. */
  datatype Item = Item(name: string, kind: Kind, size: Option<int>)

  datatype SortKey = Name | NameNumeric | Size
  datatype Direction = Asc | Desc

  /** The parts of a path that are not empty. */
  function NonEmpty(parts: seq<string>): (r: seq<string>)
    ensures forall i :: 0 <= i < |r| ==> r[i] != ""
    ensures forall p :: p in r <==> p in parts && p != ""
  {
    if |parts| == 0 then []
    else if parts[0] == "" then NonEmpty(parts[1..])
    else [parts[0]] + NonEmpty(parts[1..])
  }

  /** `pathParts`: `currentPath.split('/').filter(p => p)`. */
  function PathParts(path: string): (parts: seq<string>)
    ensures forall i :: 0 <= i < |parts| ==> parts[i] != "" && '/' !in parts[i]
  {
    var split := Split(path, '/');
    SplitPartsFree(path, '/');
    assert forall p :: p in split ==> '/' !in p;
    NonEmpty(split)
  }

  /** Parts with no empty part and no `/`: what `PathParts` gives. */
  predicate Clean(parts: seq<string>)
  {
    forall i :: 0 <= i < |parts| ==> parts[i] != "" && '/' !in parts[i]
  }

  lemma {:induction false} NonEmptyKeepsClean(parts: seq<string>)
    requires Clean(parts)
    ensures NonEmpty(parts) == parts
  {
    if |parts| > 0 {
      NonEmptyKeepsClean(parts[1..]);
    }
  }

  /** Joining clean parts with `/` and taking the path's parts gives them back. */
  lemma PathPartsJoin(parts: seq<string>)
    requires Clean(parts)
    ensures PathParts(Join(parts, '/')) == parts
  {
    if |parts| == 0 {
      assert Split("", '/') == [""];
    } else {
      SplitJoin(parts, '/');
      NonEmptyKeepsClean(parts);
    }
  }

  /**
   * `getPathUpTo(index)`: the first `index + 1` parts joined with `/`. The breadcrumb link
   * at `index` leads to the path made of those parts; the last one leads to the current
   * path with its empty segments removed.
   */
  function GetPathUpTo(path: string, index: nat): (r: string)
    ensures var parts := PathParts(path);
      PathParts(r) == parts[..if index + 1 <= |parts| then index + 1 else |parts|]
    ensures var parts := PathParts(path);
      index + 1 >= |parts| ==> PathParts(r) == parts
  {
    var parts := PathParts(path);
    var n := if index + 1 <= |parts| then index + 1 else |parts|;
    PathPartsJoin(parts[..n]);
    assert parts[..|parts|] == parts;
    Join(parts[..n], '/')
  }

  /** `totalPages`: `Math.ceil(items.length / pageSize)`. */
  function TotalPages(count: nat, pageSize: nat): (r: nat)
    requires pageSize >= 1
    ensures r * pageSize >= count
    ensures r == 0 || (r - 1) * pageSize < count
    ensures r == 0 <==> count == 0
  {
    (count + pageSize - 1) / pageSize
  }

  /** JavaScript `s.slice(start, end)` for `0 <= start`. */
  function Slice<T>(s: seq<T>, start: nat, end: nat): (r: seq<T>)
    ensures start <= end ==> |r| <= end - start
    ensures start < end && start < |s| ==> |r| == (if end <= |s| then end else |s|) - start
    ensures forall k :: 0 <= k < |r| ==> start + k < |s| && r[k] == s[start + k]
  {
    var e := if end <= |s| then end else |s|;
    if start >= e then [] else s[start..e]
  }

  /** The index of the first item of a page. */
  function PageStart(page: nat, pageSize: nat): nat
    requires page >= 1
  {
    (page - 1) * pageSize
  }

  /** `paginatedItems`: the slice `[(page - 1) * size, page * size)` of the sorted items. */
  function PageItems<T>(sorted: seq<T>, page: nat, pageSize: nat): (r: seq<T>)
    requires page >= 1
    ensures |r| <= pageSize
    ensures forall k :: 0 <= k < |r| ==>
      PageStart(page, pageSize) + k < |sorted| && r[k] == sorted[PageStart(page, pageSize) + k]
  {
    Slice(sorted, PageStart(page, pageSize), PageStart(page, pageSize) + pageSize)
  }

  /** Every item is on exactly one page: item `k` is at `k % size` on page `k / size + 1`. */
  lemma ItemOnPage<T>(sorted: seq<T>, pageSize: nat, k: nat)
    requires pageSize >= 1 && k < |sorted|
    ensures var page := k / pageSize + 1;
      && page <= TotalPages(|sorted|, pageSize)
      && k % pageSize < |PageItems(sorted, page, pageSize)|
      && PageItems(sorted, page, pageSize)[k % pageSize] == sorted[k]
  {
    var q, r := k / pageSize, k % pageSize;
    PageOfItem(|sorted|, pageSize, k);
    assert PageStart(q + 1, pageSize) + r == k && r < pageSize;
    var items := PageItems(sorted, q + 1, pageSize);
    assert items == Slice(sorted, PageStart(q + 1, pageSize), PageStart(q + 1, pageSize) + pageSize);
  }

  /** Item `k` of `count` lies on an existing page, `k / size + 1`, which starts at `k - k % size`. */
  lemma PageOfItem(count: nat, pageSize: nat, k: nat)
    requires pageSize >= 1 && k < count
    ensures k / pageSize + 1 <= TotalPages(count, pageSize)
    ensures PageStart(k / pageSize + 1, pageSize) + k % pageSize == k
  {
    var q := k / pageSize;
    var t := TotalPages(count, pageSize);
    assert q * pageSize + k % pageSize == k;
    if q + 1 > t {
      MulMono(t, q, pageSize);
      assert false;
    }
  }

  lemma MulMono(a: nat, b: nat, c: nat)
    requires a <= b
    ensures a * c <= b * c
  {
  }

  // ---- The comparator of `sortedItems` -------------------------------------------------

  /** `sortDirection === 'asc' ? 1 : -1`. */
  function Modifier(dir: Direction): int
  {
    if dir == Asc then 1 else -1
  }

  /** The characters JavaScript's `Number()` skips as white space. */
  predicate JsSpace(ch: char)
  {
    var n := ch as int;
    0x09 <= n <= 0x0d || n == 0x20 || n == 0xa0 || n == 0x1680 || 0x2000 <= n <= 0x200a
    || n == 0x2028 || n == 0x2029 || n == 0x202f || n == 0x205f || n == 0x3000 || n == 0xfeff
  }

  /** The length of the run of digits, or of non-digits, that starts `s`. */
  function RunLength(s: string, digits: bool): (n: nat)
    ensures n <= |s|
    ensures forall i :: 0 <= i < n ==> IsDigit(s[i]) == digits
    ensures n == |s| || IsDigit(s[n]) != digits
  {
    if |s| == 0 || IsDigit(s[0]) != digits then 0 else 1 + RunLength(s[1..], digits)
  }

  /** `name.match(/([^0-9]+)|([0-9]+)/g)`: the maximal runs of digits and of non-digits. */
  function Runs(s: string): (runs: seq<string>)
    ensures forall i :: 0 <= i < |runs| ==> runs[i] != ""
    ensures forall i :: 0 <= i < |runs| ==> forall j :: 0 <= j < |runs[i]| ==> IsDigit(runs[i][j]) == IsDigit(runs[i][0])
    decreases |s|
  {
    if |s| == 0 then []
    else
      var n := RunLength(s, IsDigit(s[0]));
      [s[..n]] + Runs(s[n..])
  }

  function Concat(runs: seq<string>): string
  {
    if |runs| == 0 then "" else runs[0] + Concat(runs[1..])
  }

  /** The runs put back together are the string, and neighbouring runs are of different kinds. */
  lemma {:induction false} RunsPartition(s: string)
    ensures Concat(Runs(s)) == s
    ensures forall i :: 0 <= i < |Runs(s)| - 1 ==> IsDigit(Runs(s)[i][0]) != IsDigit(Runs(s)[i + 1][0])
    decreases |s|
  {
    if |s| > 0 {
      var n := RunLength(s, IsDigit(s[0]));
      RunsPartition(s[n..]);
      assert s == s[..n] + s[n..];
    }
  }

  /** One element of `splitName`: a number or a lower-case text. */
  datatype Part = Num(n: nat) | Text(t: string)

  /**
   * `isNaN(part) ? part : Number(part)`: a digit run is its value; a run of white space
   * alone is also a number, 0, as `Number` reads it; any other run stays text.
   */
  function ToPart(run: string): (p: Part)
    requires run != ""
    requires forall j :: 0 <= j < |run| ==> IsDigit(run[j]) == IsDigit(run[0])
    ensures IsDigit(run[0]) ==> p == Num(DigitsValue(run))
    ensures p.Text? <==> !IsDigit(run[0]) && exists j :: 0 <= j < |run| && !JsSpace(run[j])
  {
    if IsDigit(run[0]) then Num(DigitsValue(run))
    else if forall j :: 0 <= j < |run| ==> JsSpace(run[j]) then Num(0)
    else Text(run)
  }

  /**
   * `splitName(name)`: no parts exactly for the empty name, and never two texts side by
   * side, since neighbouring runs differ in kind and a digit run is a number.
   */
  function SplitName(name: string): (parts: seq<Part>)
    ensures |parts| == 0 <==> name == ""
    ensures forall i :: 0 <= i < |parts| - 1 ==> parts[i].Num? || parts[i + 1].Num?
  {
    var runs := Runs(Lower(name));
    RunsPartition(Lower(name));
    seq(|runs|, i requires 0 <= i < |runs| => ToPart(runs[i]))
  }

  /** `aParts[i] > bParts[i]` for two parts that differ: a number against text is never greater. */
  predicate Greater(a: Part, b: Part)
  {
    match (a, b)
    case (Num(x), Num(y)) => x > y
    case (Text(x), Text(y)) => Less(y, x)
    case _ => false
  }

  /**
   * The numeric-name comparison from part `i` on: the first differing part decides, times
   * the direction; when one list runs out first, the shorter comes first, whatever the direction.
   */
  function CompareParts(a: seq<Part>, b: seq<Part>, i: nat, modifier: int): (r: int)
    ensures i <= |a| && |a| == |b| && a[i..] == b[i..] ==> r == 0
    decreases |a| - i
  {
    if i >= |a| || i >= |b| then |a| - |b|
    else if a[i] != b[i] then
      if a[i].Num? && b[i].Num? then (a[i].n - b[i].n) * modifier
      else (if Greater(a[i], b[i]) then 1 else -1) * modifier
    else
      assert a[i..] == b[i..] ==> a[i + 1..] == b[i + 1..] by {
        if a[i..] == b[i..] {
          assert a[i + 1..] == a[i..][1..] && b[i + 1..] == b[i..][1..];
        }
      }
      CompareParts(a, b, i + 1, modifier)
  }

  /** A size JavaScript reads as false: missing or 0. */
  predicate Falsy(size: Option<int>)
  {
    size.None? || size == Some(0)
  }

  /**
   * The comparator of `sortedItems` for the three keys: negative when `a` goes first. Under
   * both name orders a directory goes before a file, in either direction.
   */
  function Compare(a: Item, b: Item, sortBy: SortKey, dir: Direction): (r: int)
    ensures sortBy != Size && a.kind != b.kind ==> r != 0 && (r < 0 <==> a.kind == Directory)
  {
    var modifier := Modifier(dir);
    if sortBy != Size && a.kind != b.kind then
      if a.kind == Directory then -1 else 1
    else if sortBy == NameNumeric then
      CompareParts(SplitName(a.name), SplitName(b.name), 0, modifier)
    else if sortBy == Name then
      var (x, y) := (Lower(a.name), Lower(b.name));
      if x == "" && y == "" then 0
      else if x == "" then 1
      else if y == "" then -1
      else if Less(y, x) then modifier else -modifier
    else
      // `size` is falsy when missing or 0; otherwise directories count as -1
      var (x, y) := (a.size, b.size);
      if Falsy(x) && Falsy(y) then 0
      else if Falsy(x) then 1
      else if Falsy(y) then -1
      else
        var av := if a.kind == Directory then -1 else x.value;
        var bv := if b.kind == Directory then -1 else y.value;
        if av > bv then modifier else -modifier
  }

  /** The value the size order compares: -1 for a directory, the size for a file. */
  function SizeRank(it: Item): int
    requires !Falsy(it.size)
  {
    if it.kind == Directory then -1 else it.size.value
  }

  /**
   * Under the size order an entry with a missing or zero size comes after every entry with
   * a size, in either direction, and two of them tie; between entries with sizes, which
   * rank directories as -1, the smaller rank comes first ascending, and turning the
   * direction or the arguments round reverses the answer.
   */
  lemma SizeOrder(a: Item, b: Item, dir: Direction)
    ensures Falsy(a.size) && !Falsy(b.size) ==> Compare(a, b, Size, dir) == 1 && Compare(b, a, Size, dir) == -1
    ensures Falsy(a.size) && Falsy(b.size) ==> Compare(a, b, Size, dir) == 0
    ensures !Falsy(a.size) && !Falsy(b.size) && SizeRank(a) != SizeRank(b) ==>
      && (Compare(a, b, Size, Asc) < 0 <==> SizeRank(a) < SizeRank(b))
      && Compare(a, b, Size, Desc) == -Compare(a, b, Size, Asc)
      && Compare(b, a, Size, dir) == -Compare(a, b, Size, dir)
  {
  }

  /**
   * Under the name order, two entries of one kind with different non-empty names follow
   * the lower-cased names, and turning the direction round reverses the answer.
   */
  lemma NameOrder(a: Item, b: Item)
    requires a.kind == b.kind && Lower(a.name) != Lower(b.name) && a.name != "" && b.name != ""
    ensures Compare(a, b, Name, Asc) < 0 <==> Less(Lower(a.name), Lower(b.name))
    ensures Compare(a, b, Name, Desc) == -Compare(a, b, Name, Asc)
    ensures Compare(a, b, Name, Asc) == -Compare(b, a, Name, Asc)
  {
    LessTotal(Lower(a.name), Lower(b.name));
    if Less(Lower(a.name), Lower(b.name)) {
      LessAsymmetric(Lower(a.name), Lower(b.name));
    }
  }

  /** The name order never answers 0 for two entries with the same non-empty name. */
  lemma EqualNamesNotTied(a: Item, dir: Direction)
    requires a.name != ""
    ensures Compare(a, a, Name, dir) == -Modifier(dir)
  {
    LessIrreflexive(Lower(a.name));
  }

  /** A list of parts that is a proper prefix of another comes first, in both directions. */
  lemma {:induction false} PrefixFirst(a: seq<Part>, b: seq<Part>, i: nat, modifier: int)
    requires |a| < |b| && a == b[..|a|]
    ensures CompareParts(a, b, i, modifier) < 0
    decreases |a| - i
  {
    if i < |a| {
      assert a[i] == b[i];
      PrefixFirst(a, b, i + 1, modifier);
    }
  }

  /**
   * Up to the first differing parts the comparison only looks at those two; two numbers or
   * two texts there make it antisymmetric and reversed by the direction.
   */
  lemma {:induction false} FirstDifferenceDecides(a: seq<Part>, b: seq<Part>, k: nat, modifier: int)
    requires k < |a| && k < |b| && a[..k] == b[..k] && a[k] != b[k]
    requires a[k].Num? == b[k].Num?
    ensures CompareParts(a, b, 0, modifier) == -CompareParts(b, a, 0, modifier)
    ensures CompareParts(a, b, 0, modifier) == -CompareParts(a, b, 0, -modifier)
    ensures modifier == 1 ==> (CompareParts(a, b, 0, 1) < 0 <==> Greater(b[k], a[k]))
  {
    SkipEqual(a, b, 0, k, modifier);
    SkipEqual(b, a, 0, k, modifier);
    SkipEqual(a, b, 0, k, -modifier);
    if a[k].Text? {
      LessTotal(a[k].t, b[k].t);
      if Less(a[k].t, b[k].t) {
        LessAsymmetric(a[k].t, b[k].t);
      }
    }
  }

  lemma {:induction false} SkipEqual(a: seq<Part>, b: seq<Part>, i: nat, k: nat, modifier: int)
    requires i <= k < |a| && k < |b| && a[..k] == b[..k]
    ensures CompareParts(a, b, i, modifier) == CompareParts(a, b, k, modifier)
    decreases k - i
  {
    if i < k {
      assert a[i] == a[..k][i] == b[..k][i] == b[i];
      SkipEqual(a, b, i + 1, k, modifier);
    }
  }

  /**
   * A number against text at the first difference gives the same answer both ways round,
   * so the comparator is not antisymmetric there.
   */
  lemma MixedPartsNotAntisymmetric()
    ensures CompareParts([Num(1)], [Text("a")], 0, 1) == -1
    ensures CompareParts([Text("a")], [Num(1)], 0, 1) == -1
  {
  }

  lemma RunsA2()
    ensures Runs("a2") == ["a", "2"]
  {
    assert RunLength("a2", false) == 1;
    assert "a2"[..1] == "a" && "a2"[1..] == "2";
    assert RunLength("2", true) == 1;
    assert "2"[..1] == "2" && "2"[1..] == "";
  }

  lemma RunsA10()
    ensures Runs("a10") == ["a", "10"]
  {
    assert RunLength("a10", false) == 1;
    assert "a10"[..1] == "a" && "a10"[1..] == "10";
    assert RunLength("10", true) == 2;
    assert "10"[..2] == "10" && "10"[2..] == "";
  }

  lemma SplitA2()
    ensures SplitName("a2") == [Text("a"), Num(2)]
  {
    assert Lower("a2") == "a2";
    RunsA2();
    assert "2"[..0] == "";
  }

  lemma SplitA10()
    ensures SplitName("a10") == [Text("a"), Num(10)]
  {
    assert Lower("a10") == "a10";
    RunsA10();
    assert DigitsValue("10") == 10 by {
      assert "10"[..1] == "1" && "1"[..0] == "";
    }
    assert ToPart("10") == Num(10);
    assert ToPart("a") == Text("a") by {
      assert !JsSpace("a"[0]);
    }
  }

  /** The numeric-name order puts `a2` before `a10`; the name order puts it after. */
  lemma NumericNames()
    ensures Compare(Item("a2", File, None), Item("a10", File, None), NameNumeric, Asc) < 0
    ensures Compare(Item("a2", File, None), Item("a10", File, None), Name, Asc) > 0
  {
    SplitA2();
    SplitA10();
    var a: seq<Part> := [Text("a"), Num(2)];
    var b: seq<Part> := [Text("a"), Num(10)];
    assert CompareParts(a, b, 0, 1) == CompareParts(a, b, 1, 1);
    assert Lower("a2") == "a2" && Lower("a10") == "a10";
    assert "a10"[1..] == "10" && "a2"[1..] == "2";
  }

  /** The `name-numeric` loop over the parts, `Math.min` of the two lengths times. */
  method ComparePartsLoop(aParts: seq<Part>, bParts: seq<Part>, modifier: int) returns (r: int)
    ensures r == CompareParts(aParts, bParts, 0, modifier)
  {
    var i := 0;
    var n := if |aParts| < |bParts| then |aParts| else |bParts|;
    while i < n
      invariant 0 <= i <= n
      invariant CompareParts(aParts, bParts, i, modifier) == CompareParts(aParts, bParts, 0, modifier)
    {
      if aParts[i] != bParts[i] {
        if aParts[i].Num? && bParts[i].Num? {
          return (aParts[i].n - bParts[i].n) * modifier;
        }
        return (if Greater(aParts[i], bParts[i]) then 1 else -1) * modifier;
      }
      i := i + 1;
    }
    return |aParts| - |bParts|;
  }

  // ---- formatSize --------------------------------------------------------------------

  /** What the size column shows: `N/A`, `0 B`, or the scaled value (shown with one decimal) and its unit. */
  datatype SizeLabel = NotApplicable | ZeroBytes | Scaled(value: real, unit: string)

  const Units: seq<string> := ["B", "KB", "MB", "GB", "TB"]

  function Pow1024(k: nat): (p: real)
    ensures p >= 1.0
  {
    if k == 0 then 1.0 else 1024.0 * Pow1024(k - 1)
  }

  /**
   * `formatSize(item)`: the value is divided by 1024 while it is at least 1024 and the unit
   * is below TB, so the value times the unit's size is the size, the value is below 1024
   * unless the unit is TB, and at least 1 unless the unit is B.
   */
  method FormatSize(item: Item) returns (shown: SizeLabel)
    ensures item.kind == Directory ==> shown == NotApplicable
    ensures item.kind == File && (item.size.None? || item.size == Some(0)) ==> shown == ZeroBytes
    ensures item.kind == File && item.size.Some? && item.size.value != 0 ==>
      && shown.Scaled?
      && exists u :: 0 <= u < |Units| && shown.unit == Units[u]
           && shown.value * Pow1024(u) == item.size.value as real
           && (u < 4 ==> shown.value < 1024.0)
           && (u > 0 ==> shown.value >= 1.0)
  {
    if item.kind == Directory {
      return NotApplicable;
    }
    var size := item.size.GetOr(0);
    if size == 0 {
      return ZeroBytes;
    }
    var value: real := size as real;
    var unitIndex := 0;
    while value >= 1024.0 && unitIndex < |Units| - 1
      invariant 0 <= unitIndex <= 4
      invariant value * Pow1024(unitIndex) == size as real
      invariant unitIndex > 0 ==> value >= 1.0
    {
      ScaleStep(value, unitIndex);
      value := value / 1024.0;
      unitIndex := unitIndex + 1;
    }
    shown := Scaled(value, Units[unitIndex]);
  }

  lemma ScaleStep(value: real, k: nat)
    ensures (value / 1024.0) * Pow1024(k + 1) == value * Pow1024(k)
  {
    calc {
      (value / 1024.0) * Pow1024(k + 1);
      (value / 1024.0) * (1024.0 * Pow1024(k));
      value * Pow1024(k);
    }
  }

  /** The unit `formatSize` picks for a positive size is the only one with those bounds. */
  lemma {:induction false} UnitDetermined(size: real, u: nat, v: nat, x: real, y: real)
    requires u <= 4 && v <= 4
    requires x * Pow1024(u) == size && y * Pow1024(v) == size
    requires (u < 4 ==> x < 1024.0) && (u > 0 ==> x >= 1.0)
    requires (v < 4 ==> y < 1024.0) && (v > 0 ==> y >= 1.0)
    requires size > 0.0
    ensures u == v && x == y
  {
    if u < v {
      // x < 1024 gives size < 1024^(u+1) <= 1024^v <= size
      PowMono(u + 1, v);
      MulLess(x, 1024.0, Pow1024(u));
      MulAtLeast(y, 1.0, Pow1024(v));
      assert false;
    } else if v < u {
      PowMono(v + 1, u);
      MulLess(y, 1024.0, Pow1024(v));
      MulAtLeast(x, 1.0, Pow1024(u));
      assert false;
    }
  }

  lemma {:induction false} PowMono(i: nat, j: nat)
    requires i <= j
    ensures Pow1024(i) <= Pow1024(j)
    decreases j
  {
    if i < j {
      PowMono(i, j - 1);
    }
  }

  lemma MulLess(a: real, b: real, p: real)
    requires a < b && p >= 1.0
    ensures a * p < b * p
  {
  }

  lemma MulAtLeast(a: real, b: real, p: real)
    requires a >= b && p >= 1.0
    ensures a * p >= b * p
  {
  }

  // ---- The component's state -------------------------------------------------------

  /**
   * What `loadDirectory` receives for its request: a body with an `items` list, a JSON body
   * without one (the list route's `{"error": …}` reply with status 400, which `fetch` does not
   * treat as a failure), or a thrown error (the network, or a body that is not JSON).
   */
  datatype Answer = Listing(entries: seq<Item>) | NoItems | Thrown

  /** The component's data: the listing shown, its page, and the sort and size settings. */
  class Browser {
    var currentBackend: string
    var currentPath: string
    var loading: bool
    /** `None` is JavaScript's `undefined`, left by an answer without `items`. */
    var items: Option<seq<Item>>
    var selectedFile: Option<Item>
    var currentPage: nat
    var pageSize: nat
    var showTime: bool
    var sortBy: SortKey
    var sortDirection: Direction

    /** The page size is positive and the page is at least 1. */
    ghost predicate Valid()
      reads this
    {
      pageSize >= 1 && currentPage >= 1
    }

    /** `data()`: the first page of an empty listing, 25 to a page, by name ascending. */
    constructor()
      ensures Valid()
      ensures currentBackend == "" && currentPath == "" && !loading && items == Some([]) && selectedFile.None?
      ensures currentPage == 1 && pageSize == 25 && !showTime && sortBy == Name && sortDirection == Asc
    {
      currentBackend := "";
      currentPath := "";
      loading := false;
      items := Some([]);
      selectedFile := None;
      currentPage := 1;
      pageSize := 25;
      showTime := false;
      sortBy := Name;
      sortDirection := Asc;
    }

    /** The page is one that exists (page 1 counts, also when there are no items). */
    ghost predicate OnExistingPage()
      reads this
    {
      Valid() && (currentPage == 1 || (items.Some? && currentPage <= TotalPages(|items.value|, pageSize)))
    }

    /**
     * `nextPage()`: one page on, unless this is the last page. Reading `totalPages` of
     * undefined items throws a `TypeError`, reported as `thrown`, and the page stays.
     */
    method NextPage() returns (thrown: bool)
      requires Valid()
      modifies this
      ensures Valid()
      ensures thrown <==> items.None?
      ensures currentPage == if items.Some? && old(currentPage) < TotalPages(|items.value|, pageSize) then old(currentPage) + 1 else old(currentPage)
      ensures old(OnExistingPage()) ==> OnExistingPage()
      ensures items == old(items) && pageSize == old(pageSize) && sortBy == old(sortBy)
      ensures sortDirection == old(sortDirection) && currentPath == old(currentPath)
      ensures currentBackend == old(currentBackend) && showTime == old(showTime)
      ensures loading == old(loading) && selectedFile == old(selectedFile)
    {
      match items {
        case None =>
          thrown := true;
        case Some(listed) =>
          thrown := false;
          if currentPage < TotalPages(|listed|, pageSize) {
            currentPage := currentPage + 1;
          }
      }
    }

    /** `previousPage()`: one page back, unless this is the first page. */
    method PreviousPage()
      requires Valid()
      modifies this
      ensures Valid()
      ensures currentPage == if old(currentPage) > 1 then old(currentPage) - 1 else old(currentPage)
      ensures old(OnExistingPage()) ==> OnExistingPage()
      ensures items == old(items) && pageSize == old(pageSize) && sortBy == old(sortBy)
      ensures sortDirection == old(sortDirection) && currentPath == old(currentPath)
      ensures currentBackend == old(currentBackend) && showTime == old(showTime)
      ensures loading == old(loading) && selectedFile == old(selectedFile)
    {
      if currentPage > 1 {
        currentPage := currentPage - 1;
      }
    }

    /** `changePageSize(size)`: the new size, back to page 1. */
    method ChangePageSize(size: nat)
      requires Valid() && size >= 1
      modifies this
      ensures Valid() && OnExistingPage()
      ensures pageSize == size && currentPage == 1
      ensures items == old(items) && sortBy == old(sortBy) && sortDirection == old(sortDirection)
      ensures currentPath == old(currentPath) && currentBackend == old(currentBackend)
      ensures showTime == old(showTime) && loading == old(loading) && selectedFile == old(selectedFile)
    {
      pageSize := size;
      currentPage := 1;
    }

    /** `changePage(page)`: the page the pagination button names. */
    method ChangePage(page: nat)
      requires Valid() && page >= 1
      modifies this
      ensures Valid()
      ensures currentPage == page
      ensures items == old(items) && pageSize == old(pageSize) && sortBy == old(sortBy)
      ensures sortDirection == old(sortDirection) && currentPath == old(currentPath)
      ensures currentBackend == old(currentBackend) && showTime == old(showTime)
      ensures loading == old(loading) && selectedFile == old(selectedFile)
    {
      currentPage := page;
    }

    /** `toggleSortDirection()`: the other direction, back to page 1. */
    method ToggleSortDirection()
      requires Valid()
      modifies this
      ensures Valid() && OnExistingPage()
      ensures sortDirection == (if old(sortDirection) == Asc then Desc else Asc) && currentPage == 1
      ensures items == old(items) && pageSize == old(pageSize) && sortBy == old(sortBy)
      ensures currentPath == old(currentPath) && currentBackend == old(currentBackend)
      ensures showTime == old(showTime) && loading == old(loading) && selectedFile == old(selectedFile)
    {
      sortDirection := if sortDirection == Asc then Desc else Asc;
      currentPage := 1;
    }

    /** `toggleTimeDisplay()`. */
    method ToggleTimeDisplay()
      modifies this
      ensures showTime == !old(showTime)
      ensures items == old(items) && pageSize == old(pageSize) && currentPage == old(currentPage)
      ensures sortBy == old(sortBy) && sortDirection == old(sortDirection)
      ensures currentPath == old(currentPath) && currentBackend == old(currentBackend)
      ensures loading == old(loading) && selectedFile == old(selectedFile)
    {
      showTime := !showTime;
    }

    /**
     * `loadDirectory(backend, path)`, given the answer to its request. A listing replaces the
     * items and goes back to page 1; an answer without `items` leaves them undefined, also on
     * page 1; a thrown error empties the items and keeps the page number, which then need not
     * be a page that exists.
     */
    method LoadDirectory(backend: string, path: string, answer: Answer)
      requires Valid()
      modifies this
      ensures Valid()
      ensures currentBackend == backend && currentPath == path && !loading && selectedFile.None?
      ensures answer.Listing? ==> items == Some(answer.entries) && currentPage == 1
      ensures answer.NoItems? ==> items.None? && currentPage == 1
      ensures answer.Thrown? ==> items == Some([]) && currentPage == old(currentPage)
      ensures OnExistingPage() <==> !answer.Thrown? || old(currentPage) == 1
      ensures pageSize == old(pageSize) && sortBy == old(sortBy) && sortDirection == old(sortDirection)
      ensures showTime == old(showTime)
    {
      currentBackend := backend;
      currentPath := path;
      loading := true;
      selectedFile := None;
      match answer {
        case Listing(data) =>
          items := Some(data);
          currentPage := 1;
        case NoItems =>
          items := None;
          currentPage := 1;
        case Thrown =>
          items := Some([]);
      }
      loading := false;
    }

    /**
     * `paginatedItems`, given `sortedItems`: `None` when the items are undefined, for
     * `sortedItems` then throws while spreading them.
     */
    function PaginatedItems(sorted: seq<Item>): (r: Option<seq<Item>>)
      reads this
      requires Valid()
      ensures r.None? <==> items.None?
      ensures r.Some? ==> |r.value| <= pageSize && r.value == PageItems(sorted, currentPage, pageSize)
    {
      if items.None? then None else Some(PageItems(sorted, currentPage, pageSize))
    }
  }
}
