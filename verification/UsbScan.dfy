/**
 `_scan_usb_files`: the depth- and budget-bounded listing of a drive. The listing
 with neither budget nor counter is the specification.
 */
module UsbScan {
  import opened Wrappers

  const MAX_ITEMS := 1000
  const MAX_DEPTH := 3

  /** A directory entry; None stands for a `stat`, or an `exists` or `scandir`, that fails. */
  datatype Entry = File(name: string, size: Option<string>) | Dir(name: string, content: Option<seq<Entry>>)

  /** An output line before formatting. */
  datatype OutputLine = DirLine(level: nat, name: string) | FileLine(level: nat, name: string, size: string)

  /** What an entry contributes: a line of output, or an attempt that ends its directory. */
  datatype Item = Line(line: OutputLine) | Failed

  // ---- the order of entries -----------------------------------------------

  function Lower(c: char): char {
    if 'A' <= c <= 'Z' then c + 32 as char else c
  }

  function LowerAll(s: string): string {
    seq(|s|, i requires 0 <= i < |s| => Lower(s[i]))
  }

  lemma LowerCase(s: string, i: nat)
    requires i < |s|
    ensures |LowerAll(s)| == |s| && !('A' <= LowerAll(s)[i] <= 'Z')
    ensures LowerAll(s)[i] as int == s[i] as int + if 'A' <= s[i] <= 'Z' then 32 else 0
  {
  }

  predicate Before(s: string, t: string) {
    t != [] && (s == [] || s[0] < t[0] || (s[0] == t[0] && Before(s[1..], t[1..])))
  }

  /** Directories first, then by lower-case name. */
  predicate Precedes(e: Entry, f: Entry) {
    (e.Dir? && f.File?) || (e.Dir? == f.Dir? && Before(LowerAll(e.name), LowerAll(f.name)))
  }

  function Insert(e: Entry, es: seq<Entry>): seq<Entry> {
    if es == [] || !Precedes(es[0], e) then [e] + es else [es[0]] + Insert(e, es[1..])
  }

  /** Python's stable `sorted`. */
  function SortEntries(es: seq<Entry>): seq<Entry> {
    if es == [] then [] else Insert(es[0], SortEntries(es[1..]))
  }

  // ---- the unbounded listing ----------------------------------------------

  /** The pre-order listing of a directory, cut at three levels only. */
  function Listing(content: Option<seq<Entry>>, depth: nat): seq<Item>
    requires depth <= MAX_DEPTH
    decreases MAX_DEPTH - depth, 1, 0
  {
    if depth == MAX_DEPTH || content.None? then []
    else Walk(SortEntries(content.value), depth)
  }

  predicate Fails(e: Entry) {
    e.File? && e.size.None?
  }

  /** An entry that cannot be examined ends the listing of its directory. */
  function Walk(es: seq<Entry>, depth: nat): seq<Item>
    requires depth < MAX_DEPTH
    decreases MAX_DEPTH - depth, 0, |es|
  {
    if es == [] then []
    else EntryItems(es[0], depth) + if Fails(es[0]) then [] else Walk(es[1..], depth)
  }

  /** An entry's own line and, for a directory, everything below it. */
  function EntryItems(e: Entry, depth: nat): seq<Item>
    requires depth < MAX_DEPTH
    decreases MAX_DEPTH - depth, 0, 0
  {
    match e
    case File(name, None) => [Failed]
    case File(name, Some(size)) => [Line(FileLine(depth, name, size))]
    case Dir(name, content) => [Line(DirLine(depth, name))] + Listing(content, depth + 1)
  }

  function Lines(items: seq<Item>): seq<OutputLine> {
    if items == [] then []
    else (if items[0].Line? then [items[0].line] else []) + Lines(items[1..])
  }

  function Take(items: seq<Item>, n: nat): seq<Item> {
    if |items| <= n then items else items[..n]
  }

  lemma LinesTail(xs: seq<Item>)
    requires xs != []
    ensures Lines(xs) == (if xs[0].Line? then [xs[0].line] else []) + Lines(xs[1..])
  {
  }

  lemma ConcatAssociates(a: seq<OutputLine>, b: seq<OutputLine>, c: seq<OutputLine>)
    ensures a + (b + c) == (a + b) + c
  {
  }

  lemma {:induction false} LinesConcat(xs: seq<Item>, ys: seq<Item>)
    ensures Lines(xs + ys) == Lines(xs) + Lines(ys)
  {
    if xs == [] {
      assert xs + ys == ys;
    } else {
      LinesConcat(xs[1..], ys);
      LinesTail(xs + ys);
      LinesTail(xs);
      assert (xs + ys)[1..] == xs[1..] + ys;
      ConcatAssociates(if xs[0].Line? then [xs[0].line] else [], Lines(xs[1..]), Lines(ys));
    }
  }

  /** Output lines and item counter, the scan's mutable state. */
  datatype Output = Output(lines: seq<OutputLine>, count: nat)

  /** From `o`, output `p` is reached by listing `items` as far as the budget goes. */
  ghost predicate Emits(o: Output, p: Output, items: seq<Item>) {
    && o.count <= MAX_ITEMS
    && p.lines == o.lines + Lines(Take(items, MAX_ITEMS - o.count))
    && p.count == o.count + |Take(items, MAX_ITEMS - o.count)|
  }

  lemma EmitsNothing(o: Output, items: seq<Item>)
    requires o.count == MAX_ITEMS || (items == [] && o.count <= MAX_ITEMS)
    ensures Emits(o, o, items)
  {
    assert Take(items, MAX_ITEMS - o.count) == [];
  }

  lemma EmitsOne(o: Output, item: Item)
    requires o.count < MAX_ITEMS
    ensures Emits(o, Output(o.lines + if item.Line? then [item.line] else [], o.count + 1), [item])
  {
    assert [item][1..] == [];
  }

  lemma EmitsBoth(o: Output, p: Output, q: Output, xs: seq<Item>, ys: seq<Item>)
    requires Emits(o, p, xs) && Emits(p, q, ys)
    ensures Emits(o, q, xs + ys)
  {
    var n := MAX_ITEMS - o.count;
    assert Take(xs + ys, n) == Take(xs, n) + Take(ys, n - |Take(xs, n)|);
    LinesConcat(Take(xs, n), Take(ys, n - |Take(xs, n)|));
  }

  class UsbScanner {
    var results: seq<OutputLine>
    var itemsCount: nat

    constructor ()
      ensures results == [] && itemsCount == 0
    {
      results, itemsCount := [], 0;
    }

    function Current(): Output
      reads this
    {
      Output(results, itemsCount)
    }

    /** Adds as much of a directory's listing as the budget left allows. */
    method RecursiveScan(content: Option<seq<Entry>>, depth: nat)
      requires depth <= MAX_DEPTH && itemsCount <= MAX_ITEMS
      modifies this
      ensures Emits(old(Current()), Current(), Listing(content, depth)) && itemsCount <= MAX_ITEMS
      decreases MAX_DEPTH - depth, 1
    {
      if depth >= MAX_DEPTH || itemsCount >= MAX_ITEMS || content.None? {
        EmitsNothing(Current(), Listing(content, depth));
        return;
      }
      var entries := SortEntries(content.value);
      ghost var start := Current();
      ghost var done: seq<Item> := [];
      EmitsNothing(start, []);
      assert entries[0..] == entries && [] + Walk(entries, depth) == Walk(entries, depth);
      for i := 0 to |entries|
        invariant Walk(entries, depth) == done + Walk(entries[i..], depth)
        invariant Emits(start, Current(), done) && itemsCount <= MAX_ITEMS
      {
        if itemsCount >= MAX_ITEMS {
          EmitsNothing(Current(), Walk(entries[i..], depth));
          EmitsBoth(start, Current(), Current(), done, Walk(entries[i..], depth));
          return;
        }
        ghost var before := Current();
        ghost var items := EntryItems(entries[i], depth);
        WalkStep(done, entries[i..], depth);
        assert entries[i..][1..] == entries[i + 1..];
        var failed := ScanEntry(entries[i], depth);
        EmitsBoth(start, before, Current(), done, items);
        if failed {
          return;
        }
        done := done + items;
      }
      assert done + [] == done;
    }

    /** `failed`: the entry could not be examined, which ends its directory. */
    method ScanEntry(e: Entry, depth: nat) returns (failed: bool)
      requires depth < MAX_DEPTH && itemsCount < MAX_ITEMS
      modifies this
      ensures Emits(old(Current()), Current(), EntryItems(e, depth)) && itemsCount <= MAX_ITEMS
      ensures failed <==> Fails(e)
      decreases MAX_DEPTH - depth, 0
    {
      ghost var start := Current();
      itemsCount := itemsCount + 1;
      if e.Dir? {
        EmitsOne(start, Line(DirLine(depth, e.name)));
        results := results + [DirLine(depth, e.name)];
        ghost var middle := Current();
        RecursiveScan(e.content, depth + 1);
        EmitsBoth(start, middle, Current(), [Line(DirLine(depth, e.name))], Listing(e.content, depth + 1));
      } else if e.size.None? {
        EmitsOne(start, Failed);
        assert results + [] == results;
      } else {
        EmitsOne(start, Line(FileLine(depth, e.name, e.size.value)));
        results := results + [FileLine(depth, e.name, e.size.value)];
      }
      failed := Fails(e);
    }

    /** The lines are those of the first 1000 items of the listing, and the counter counts these items. */
    method ScanUsbFiles(content: Option<seq<Entry>>) returns (lines: seq<OutputLine>)
      modifies this
      ensures lines == Lines(Take(Listing(content, 0), MAX_ITEMS))
      ensures itemsCount == |Take(Listing(content, 0), MAX_ITEMS)|
      ensures NothingFails(content, 3) ==>
                var n := EntriesWithin(content, 3);
                itemsCount == |lines| == if n < 1000 then n else 1000
    {
      results, itemsCount := [], 0;
      RecursiveScan(content, 0);
      lines := results;
      if NothingFails(content, 3) {
        ListingCounts(content, 0);
        ReadableLines(Take(Listing(content, 0), MAX_ITEMS));
      }
    }
  }

  lemma WalkStep(done: seq<Item>, es: seq<Entry>, depth: nat)
    requires es != [] && depth < MAX_DEPTH
    ensures done + Walk(es, depth) ==
            if Fails(es[0]) then done + EntryItems(es[0], depth)
            else done + EntryItems(es[0], depth) + Walk(es[1..], depth)
  {
  }

  // ---- what the bounded listing means -------------------------------------

  ghost predicate Readable(items: seq<Item>) {
    forall i :: 0 <= i < |items| ==> items[i].Line?
  }

  lemma {:induction false} ReadableLines(items: seq<Item>)
    requires Readable(items)
    ensures |Lines(items)| == |items|
    ensures forall i :: 0 <= i < |items| ==> Lines(items)[i] == items[i].line
  {
    if items != [] {
      ReadableLines(items[1..]);
    }
  }

  ghost predicate InOrder(es: seq<Entry>) {
    forall i, j :: 0 <= i < j < |es| ==> !Precedes(es[j], es[i])
  }

  lemma {:induction false} BeforeTransitive(s: string, t: string, u: string)
    ensures Before(s, t) && Before(t, u) ==> Before(s, u)
    ensures !(Before(s, t) && Before(t, s))
    ensures !Before(s, t) && !Before(t, u) ==> !Before(s, u)
    decreases |t|
  {
    if s != [] && t != [] && u != [] {
      BeforeTransitive(s[1..], t[1..], u[1..]);
    } else if s != [] && t != [] {
      BeforeTransitive(s[1..], t[1..], []);
    }
  }

  lemma {:induction false} InsertSorts(e: Entry, es: seq<Entry>)
    requires InOrder(es)
    ensures InOrder(Insert(e, es)) && multiset(Insert(e, es)) == multiset(es) + multiset{e}
  {
    if es == [] {
    } else if !Precedes(es[0], e) {
      forall j | 0 <= j < |es|
        ensures !Precedes(es[j], e)
      {
        PrecedesOrders(es[j], es[0], e);
      }
    } else {
      var rest := Insert(e, es[1..]);
      InsertSorts(e, es[1..]);
      assert es == [es[0]] + es[1..];
      PrecedesOrders(e, es[0], es[0]);
      forall j | 0 <= j < |rest|
        ensures !Precedes(rest[j], es[0])
      {
        InsertMembers(e, es[1..], rest[j]);
      }
    }
  }

  lemma {:induction false} InsertMembers(e: Entry, es: seq<Entry>, f: Entry)
    ensures f in Insert(e, es) ==> f == e || f in es
  {
    if es != [] && Precedes(es[0], e) {
      InsertMembers(e, es[1..], f);
    }
  }

  lemma PrecedesOrders(e: Entry, f: Entry, g: Entry)
    ensures !Precedes(e, f) && !Precedes(f, g) ==> !Precedes(e, g)
    ensures !(Precedes(e, f) && Precedes(f, e))
  {
    BeforeTransitive(LowerAll(e.name), LowerAll(f.name), LowerAll(g.name));
  }

  /** Neither entry goes before the other: both directories or both files, of one lower-case name. */
  predicate SameRank(e: Entry, f: Entry) {
    !Precedes(e, f) && !Precedes(f, e)
  }

  function Ranked(es: seq<Entry>, rank: Entry): seq<Entry> {
    if es == [] then [] else (if SameRank(es[0], rank) then [es[0]] else []) + Ranked(es[1..], rank)
  }

  lemma RankedCons(e: Entry, es: seq<Entry>, rank: Entry)
    ensures Ranked([e] + es, rank) == (if SameRank(e, rank) then [e] else []) + Ranked(es, rank)
  {
    assert ([e] + es)[1..] == es;
  }

  lemma {:induction false} InsertStable(e: Entry, es: seq<Entry>, rank: Entry)
    ensures Ranked(Insert(e, es), rank) == Ranked([e] + es, rank)
  {
    if es != [] && Precedes(es[0], e) {
      var first, rest := es[0], es[1..];
      assert es == [first] + rest;
      InsertStable(e, rest, rank);
      RankedCons(first, Insert(e, rest), rank);
      RankedCons(first, rest, rank);
      RankedCons(e, rest, rank);
      RankedCons(e, es, rank);
      PrecedesOrders(first, rank, e);
    }
  }

  /** Entries of one rank stay in the order the directory gave them. */
  lemma {:induction false} SortStable(es: seq<Entry>, rank: Entry)
    ensures Ranked(SortEntries(es), rank) == Ranked(es, rank)
  {
    if es != [] {
      SortStable(es[1..], rank);
      InsertStable(es[0], SortEntries(es[1..]), rank);
      RankedCons(es[0], SortEntries(es[1..]), rank);
    }
  }

  lemma {:induction false} SortOrders(es: seq<Entry>)
    ensures InOrder(SortEntries(es)) && multiset(SortEntries(es)) == multiset(es)
  {
    if es != [] {
      SortOrders(es[1..]);
      InsertSorts(es[0], SortEntries(es[1..]));
      assert es == [es[0]] + es[1..];
    }
  }

  /** Lexicographic order: at the first difference, or as a proper prefix. */
  lemma {:induction false} BeforeExactly(s: string, t: string)
    ensures Before(s, t) <==>
            exists k :: 0 <= k <= |s| && k < |t| && s[..k] == t[..k] && (k == |s| || s[k] < t[k])
  {
    if s != [] && t != [] && s[0] == t[0] {
      BeforeExactly(s[1..], t[1..]);
      if k :| 0 <= k <= |s[1..]| && k < |t[1..]| && s[1..][..k] == t[1..][..k] &&
              (k == |s[1..]| || s[1..][k] < t[1..][k]) {
        assert s[..k + 1] == [s[0]] + s[1..][..k] && t[..k + 1] == [t[0]] + t[1..][..k];
      }
      if k :| 0 <= k <= |s| && k < |t| && s[..k] == t[..k] && (k == |s| || s[k] < t[k]) {
        assert k > 0;
        assert s[1..][..k - 1] == s[..k][1..] && t[1..][..k - 1] == t[..k][1..];
      }
    } else if t != [] {
      assert s[..0] == t[..0] == [];
      forall k | 0 < k <= |s| && k < |t|
        ensures s[..k] != t[..k]
      {
        if s != [] {
          assert s[..k][0] == s[0] && t[..k][0] == t[0];
        }
      }
    }
  }

  /**
   Each directory is listed as a permutation of its entries, directories first, names in
   lower-case order, and those that compare equal in the order they came.
   */
  lemma EntriesSorted(es: seq<Entry>)
    ensures InOrder(SortEntries(es)) && multiset(SortEntries(es)) == multiset(es)
    ensures var sorted := SortEntries(es);
            forall i, j :: 0 <= i < j < |sorted| ==>
              && (sorted[j].Dir? ==> sorted[i].Dir?)
              && (sorted[i].Dir? == sorted[j].Dir? ==> !Before(LowerAll(sorted[j].name), LowerAll(sorted[i].name)))
    ensures forall rank :: Ranked(SortEntries(es), rank) == Ranked(es, rank)
  {
    SortOrders(es);
    forall rank
      ensures Ranked(SortEntries(es), rank) == Ranked(es, rank)
    {
      SortStable(es, rank);
    }
  }

  // ---- the listing as a walk over paths -----------------------------------

  /** Where an entry stands: its index among the sorted entries of each level down to its own. */
  type Path = seq<nat>

  function SortedContent(content: Option<seq<Entry>>): seq<Entry> {
    if content.None? then [] else SortEntries(content.value)
  }

  /** The entry at a path; a directory that cannot be read has nothing below it. */
  function Node(es: seq<Entry>, path: Path): Option<Entry>
    decreases |path|
  {
    if path == [] || path[0] >= |es| then None
    else if |path| == 1 then Some(es[path[0]])
    else if es[path[0]].Dir? then Node(SortedContent(es[path[0]].content), path[1..])
    else None
  }

  /** No entry before the path's own, on any of its levels, ends the listing there. */
  predicate Reached(es: seq<Entry>, path: Path)
    requires Node(es, path).Some?
    decreases |path|
  {
    && (forall i :: 0 <= i < path[0] ==> !Fails(es[i]))
    && (|path| > 1 ==> Reached(SortedContent(es[path[0]].content), path[1..]))
  }

  predicate Listed(es: seq<Entry>, path: Path, levels: nat) {
    |path| <= levels && Node(es, path).Some? && Reached(es, path)
  }

  /** Pre-order: a directory before what is below it, and that before the next sibling. */
  predicate PathBefore(p: Path, q: Path) {
    q != [] && (p == [] || p[0] < q[0] || (p[0] == q[0] && PathBefore(p[1..], q[1..])))
  }

  function ItemOf(e: Entry, level: nat): Item {
    match e
    case File(name, None) => Failed
    case File(name, Some(size)) => Line(FileLine(level, name, size))
    case Dir(name, _) => Line(DirLine(level, name))
  }

  ghost predicate ItemAt(es: seq<Entry>, depth: nat, p: Path, item: Item) {
    Node(es, p).Some? && item == ItemOf(Node(es, p).value, depth + |p| - 1)
  }

  /** The i-th item is that of the i-th path, one level deeper for each name after the first. */
  ghost predicate ItemsOfPaths(es: seq<Entry>, depth: nat, ps: seq<Path>, items: seq<Item>) {
    && |ps| == |items|
    && (forall i :: 0 <= i < |ps| ==> ItemAt(es, depth, ps[i], items[i]))
  }

  /** The paths that are listed and start in a range of siblings, each once and in pre-order. */
  ghost predicate Enumerates(es: seq<Entry>, k: nat, m: nat, levels: nat, ps: seq<Path>) {
    && (forall i, j :: 0 <= i < j < |ps| ==> PathBefore(ps[i], ps[j]))
    && (forall p :: p in ps <==> Listed(es, p, levels) && k <= p[0] < m)
  }

  lemma EnumeratesBoth(es: seq<Entry>, k: nat, m: nat, n: nat, levels: nat, ps: seq<Path>, qs: seq<Path>)
    requires k <= m <= n
    requires Enumerates(es, k, m, levels, ps) && Enumerates(es, m, n, levels, qs)
    ensures Enumerates(es, k, n, levels, ps + qs)
  {
    forall i, j | 0 <= i < |ps| && 0 <= j < |qs|
      ensures PathBefore(ps[i], qs[j])
    {
      assert ps[i] in ps && qs[j] in qs;
    }
  }

  lemma ItemsOfBoth(es: seq<Entry>, depth: nat, ps: seq<Path>, xs: seq<Item>, qs: seq<Path>, ys: seq<Item>)
    requires ItemsOfPaths(es, depth, ps, xs) && ItemsOfPaths(es, depth, qs, ys)
    ensures ItemsOfPaths(es, depth, ps + qs, xs + ys)
  {
    var all, items := ps + qs, xs + ys;
    forall i | 0 <= i < |all|
      ensures ItemAt(es, depth, all[i], items[i])
    {
      if i < |ps| {
        assert all[i] == ps[i] && items[i] == xs[i];
      } else {
        assert all[i] == qs[i - |ps|] && items[i] == ys[i - |ps|];
      }
    }
  }

  /** Behind an entry that fails nothing of its directory is listed. */
  lemma NothingBehindFailure(es: seq<Entry>, k: nat, levels: nat, ps: seq<Path>)
    requires k < |es| && Fails(es[k]) && Enumerates(es, k, k + 1, levels, ps)
    ensures Enumerates(es, k, |es|, levels, ps)
  {
    forall p | Listed(es, p, levels) && k <= p[0] < |es|
      ensures p[0] < k + 1
    {
    }
  }

  function Below(k: nat, qs: seq<Path>): seq<Path> {
    seq(|qs|, i requires 0 <= i < |qs| => [k] + qs[i])
  }

  lemma PathTail(k: nat, q: Path)
    ensures ([k] + q)[0] == k && ([k] + q)[1..] == q
  {
  }

  lemma BelowMember(k: nat, qs: seq<Path>, p: Path)
    ensures p in Below(k, qs) <==> p != [] && p[0] == k && p[1..] in qs
  {
    if p in Below(k, qs) {
      var i :| 0 <= i < |qs| && Below(k, qs)[i] == p;
      PathTail(k, qs[i]);
    }
    if p != [] && p[0] == k && p[1..] in qs {
      var i :| 0 <= i < |qs| && qs[i] == p[1..];
      assert Below(k, qs)[i] == [k] + p[1..] == p;
    }
  }

  /** The paths of one entry: its own, then those below it. */
  lemma EntryPaths(es: seq<Entry>, k: nat, levels: nat, qs: seq<Path>)
    requires k < |es| && levels > 0 && forall i :: 0 <= i < k ==> !Fails(es[i])
    requires var below := if es[k].Dir? then SortedContent(es[k].content) else [];
             Enumerates(below, 0, |below|, levels - 1, qs)
    ensures Enumerates(es, k, k + 1, levels, [[k]] + Below(k, qs))
  {
    var below := if es[k].Dir? then SortedContent(es[k].content) else [];
    var ps := [[k]] + Below(k, qs);
    forall i, j | 0 <= i < j < |ps|
      ensures PathBefore(ps[i], ps[j])
    {
      if i == 0 {
        assert qs[j - 1] in qs && ps[j] == [k] + qs[j - 1];
        PathTail(k, qs[j - 1]);
        assert ps[0] == [k] && ps[0][1..] == [];
      } else {
        PathTail(k, qs[i - 1]);
        PathTail(k, qs[j - 1]);
      }
    }
    forall p: Path
      ensures p in ps <==> Listed(es, p, levels) && k <= p[0] < k + 1
    {
      PathOfEntry(es, k, levels, qs, p);
    }
  }

  lemma ListedBelow(es: seq<Entry>, p: Path, levels: nat)
    requires |p| > 1 && p[0] < |es| && levels > 0 && forall i :: 0 <= i < p[0] ==> !Fails(es[i])
    ensures Listed(es, p, levels) <==>
            es[p[0]].Dir? && Listed(SortedContent(es[p[0]].content), p[1..], levels - 1)
  {
  }

  lemma PathOfEntry(es: seq<Entry>, k: nat, levels: nat, qs: seq<Path>, p: Path)
    requires k < |es| && levels > 0 && forall i :: 0 <= i < k ==> !Fails(es[i])
    requires var below := if es[k].Dir? then SortedContent(es[k].content) else [];
             forall q :: q in qs <==> Listed(below, q, levels - 1) && 0 <= q[0] < |below|
    ensures p in [[k]] + Below(k, qs) <==> Listed(es, p, levels) && k <= p[0] < k + 1
  {
    BelowMember(k, qs, p);
    if |p| > 1 && p[0] == k {
      ListedBelow(es, p, levels);
    } else if p != [] && p[0] == k {
      assert p == [k];
    }
    assert |p| > 1 ==> p !in [[k]];
  }

  lemma ItemsBelow(es: seq<Entry>, k: nat, depth: nat, qs: seq<Path>, items: seq<Item>)
    requires k < |es| && es[k].Dir? && ItemsOfPaths(SortedContent(es[k].content), depth + 1, qs, items)
    ensures ItemsOfPaths(es, depth, Below(k, qs), items)
  {
    forall i | 0 <= i < |qs|
      ensures Node(es, [k] + qs[i]) == Node(SortedContent(es[k].content), qs[i])
    {
      PathTail(k, qs[i]);
    }
  }

  /** The paths of one entry, each with its item. */
  lemma {:induction false} EntryListing(es: seq<Entry>, k: nat, depth: nat) returns (ps: seq<Path>)
    requires k < |es| && depth < 3 && forall i :: 0 <= i < k ==> !Fails(es[i])
    ensures Enumerates(es, k, k + 1, 3 - depth, ps) && ItemsOfPaths(es, depth, ps, EntryItems(es[k], depth))
    decreases 3 - depth, 0, 0
  {
    var qs: seq<Path> := [];
    var own := ItemOf(es[k], depth);
    assert ItemsOfPaths(es, depth, [[k]], [own]);
    if es[k].Dir? {
      qs := ListingPaths(es[k].content, depth + 1);
      ItemsBelow(es, k, depth, qs, Listing(es[k].content, depth + 1));
      ItemsOfBoth(es, depth, [[k]], [own], Below(k, qs), Listing(es[k].content, depth + 1));
    } else {
      assert [[k]] + Below(k, qs) == [[k]] && EntryItems(es[k], depth) == [own];
    }
    EntryPaths(es, k, 3 - depth, qs);
    ps := [[k]] + Below(k, qs);
  }

  lemma {:induction false} WalkPaths(es: seq<Entry>, k: nat, depth: nat) returns (ps: seq<Path>)
    requires k <= |es| && depth < 3 && forall i :: 0 <= i < k ==> !Fails(es[i])
    ensures Enumerates(es, k, |es|, 3 - depth, ps) && ItemsOfPaths(es, depth, ps, Walk(es[k..], depth))
    decreases 3 - depth, 1, |es| - k
  {
    ps := [];
    if k < |es| {
      ps := EntryListing(es, k, depth);
      assert es[k..][1..] == es[k + 1..];
      if Fails(es[k]) {
        NothingBehindFailure(es, k, 3 - depth, ps);
        assert EntryItems(es[k], depth) + [] == EntryItems(es[k], depth);
      } else {
        var qs := WalkPaths(es, k + 1, depth);
        EnumeratesBoth(es, k, k + 1, |es|, 3 - depth, ps, qs);
        ItemsOfBoth(es, depth, ps, EntryItems(es[k], depth), qs, Walk(es[k + 1..], depth));
        ps := ps + qs;
      }
    }
  }

  /**
   The unbounded listing without its own recursion: exactly one item for every path of at
   most three names that no failing entry cuts off, at the level of the path, in pre-order.
   */
  lemma {:induction false} ListingPaths(content: Option<seq<Entry>>, depth: nat) returns (ps: seq<Path>)
    requires depth <= 3
    ensures forall i, j :: 0 <= i < j < |ps| ==> PathBefore(ps[i], ps[j])
    ensures forall p :: p in ps <==> Listed(SortedContent(content), p, 3 - depth)
    ensures ItemsOfPaths(SortedContent(content), depth, ps, Listing(content, depth))
    ensures Enumerates(SortedContent(content), 0, |SortedContent(content)|, 3 - depth, ps)
    decreases 3 - depth, 2, 0
  {
    var es := SortedContent(content);
    ps := [];
    if depth < 3 && content.Some? {
      ps := WalkPaths(es, 0, depth);
      assert es[0..] == es;
    }
  }

  // ---- when nothing fails -------------------------------------------------

  /** No file of the first levels fails. */
  predicate NothingFails(content: Option<seq<Entry>>, levels: nat)
    decreases levels
  {
    levels > 0 && content.Some? ==>
      forall e :: e in content.value ==> !Fails(e) && (e.Dir? ==> NothingFails(e.content, levels - 1))
  }

  /** The number of entries on the first levels of a tree. */
  function EntriesWithin(content: Option<seq<Entry>>, levels: nat): nat
    decreases levels, 0, 0
  {
    if levels == 0 || content.None? then 0 else Total(content.value, levels - 1)
  }

  /** An entry and what is below it, down to `levels` more levels. */
  function EntryCount(e: Entry, levels: nat): nat
    decreases levels, 1, 0
  {
    1 + if e.Dir? then EntriesWithin(e.content, levels) else 0
  }

  function Total(es: seq<Entry>, levels: nat): nat
    decreases levels, 2, |es|
  {
    if es == [] then 0 else EntryCount(es[0], levels) + Total(es[1..], levels)
  }

  lemma {:induction false} TotalInsert(e: Entry, es: seq<Entry>, levels: nat)
    ensures Total(Insert(e, es), levels) == EntryCount(e, levels) + Total(es, levels)
  {
    if es != [] && Precedes(es[0], e) {
      TotalInsert(e, es[1..], levels);
    }
  }

  lemma {:induction false} TotalSorted(es: seq<Entry>, levels: nat)
    ensures Total(SortEntries(es), levels) == Total(es, levels)
  {
    if es != [] {
      TotalSorted(es[1..], levels);
      TotalInsert(es[0], SortEntries(es[1..]), levels);
    }
  }

  ghost predicate Sound(es: seq<Entry>, levels: nat) {
    forall e :: e in es ==> !Fails(e) && (e.Dir? ==> NothingFails(e.content, levels))
  }

  lemma SortedSound(content: Option<seq<Entry>>, levels: nat)
    requires NothingFails(content, levels + 1)
    ensures Sound(SortedContent(content), levels)
  {
    if content.Some? {
      SortOrders(content.value);
      forall e | e in SortEntries(content.value)
        ensures e in content.value
      {
        assert e in multiset(SortEntries(content.value));
      }
    }
  }

  lemma EntryListed(e: Entry, depth: nat)
    requires depth < 3 && !Fails(e) && (e.Dir? ==> NothingFails(e.content, 2 - depth))
    ensures Readable(EntryItems(e, depth)) && |EntryItems(e, depth)| == EntryCount(e, 2 - depth)
    decreases 3 - depth, 0, 0
  {
    if e.Dir? {
      ListingCounts(e.content, depth + 1);
    }
  }

  lemma {:induction false} WalkCounts(es: seq<Entry>, depth: nat)
    requires depth < 3 && Sound(es, 2 - depth)
    ensures Readable(Walk(es, depth)) && |Walk(es, depth)| == Total(es, 2 - depth)
    decreases 3 - depth, 1, |es|
  {
    if es != [] {
      EntryListed(es[0], depth);
      WalkCounts(es[1..], depth);
    }
  }

  /** When nothing fails the listing has an item for every entry of the levels left. */
  lemma ListingCounts(content: Option<seq<Entry>>, depth: nat)
    requires depth <= 3 && NothingFails(content, 3 - depth)
    ensures Readable(Listing(content, depth)) && |Listing(content, depth)| == EntriesWithin(content, 3 - depth)
    decreases 3 - depth, 2, 0
  {
    if depth < 3 && content.Some? {
      SortedSound(content, 2 - depth);
      WalkCounts(SortEntries(content.value), depth);
      TotalSorted(content.value, 2 - depth);
    }
  }

  /** When nothing fails no path is cut off. */
  lemma {:induction false} SoundReaches(es: seq<Entry>, p: Path, levels: nat)
    requires Sound(es, levels) && |p| <= levels + 1 && Node(es, p).Some?
    ensures Reached(es, p) && !Fails(Node(es, p).value)
    decreases |p|
  {
    if |p| > 1 {
      var below := es[p[0]].content;
      SortedSound(below, levels - 1);
      SoundReaches(SortedContent(below), p[1..], levels - 1);
    }
  }

  /**
   When nothing fails the scan returns the lines of the first 1000 entries, in pre-order,
   among all those at most three names deep, each with the level it stands at.
   */
  lemma ScanIsPrefix(content: Option<seq<Entry>>) returns (ps: seq<Path>)
    requires NothingFails(content, 3)
    ensures forall p :: p in ps <==> |p| <= 3 && Node(SortedContent(content), p).Some?
    ensures forall i, j :: 0 <= i < j < |ps| ==> PathBefore(ps[i], ps[j])
    ensures |ps| == EntriesWithin(content, 3)
    ensures var lines := Lines(Take(Listing(content, 0), MAX_ITEMS));
            && |lines| == (if |ps| < 1000 then |ps| else 1000)
            && forall i :: 0 <= i < |lines| ==>
                 var e := Node(SortedContent(content), ps[i]).value;
                 lines[i] == if e.Dir? then DirLine(|ps[i]| - 1, e.name)
                             else FileLine(|ps[i]| - 1, e.name, e.size.GetOr(""))
  {
    var es := SortedContent(content);
    var all := Listing(content, 0);
    ps := ListingPaths(content, 0);
    ListingCounts(content, 0);
    ReadableLines(Take(all, MAX_ITEMS));
    SortedSound(content, 2);
    forall p | |p| <= 3 && Node(es, p).Some?
      ensures Listed(es, p, 3) && !Fails(Node(es, p).value)
    {
      SoundReaches(es, p, 2);
    }
    forall i | 0 <= i < |ps|
      ensures Listed(es, ps[i], 3)
    {
      assert ps[i] in ps;
    }
  }
}
