/**
 The rotation chain as one logical byte stream: how the viewer lays the files of one sink end to
 end, oldest generation first, and where a logical offset falls.
 */
module Chain {
  import opened Bytes
  import opened Lines

  /** One chain's files by generation: 0 is the active file, n the n-th rotated one. */
  type Generations = map<nat, Bytes>

  /** One file of the chain; data stands for what the path holds when it is read. */
  datatype ChainFile = ChainFile(data: Bytes, start: nat, size: nat)

  datatype FileChain = FileChain(files: seq<ChainFile>, total: nat) {
    /** Files lie end to end from offset 0, none is empty, and each still has its snapshotted size. */
    ghost predicate Valid() {
      && (forall i | 0 <= i < |files| :: files[i].size == |files[i].data| > 0)
      && (files != [] ==> files[0].start == 0)
      && (forall i | 0 < i < |files| :: files[i].start == files[i - 1].start + files[i - 1].size)
      && total == if files == [] then 0 else files[|files| - 1].start + files[|files| - 1].size
    }

    predicate Empty() {
      files == []
    }

    /** The file a logical offset falls in and the position there; past the end, the last file's end. */
    method FileAt(logicalOffset: nat) returns (fileIdx: nat, physOffset: nat)
      requires Valid() && !Empty()
      ensures fileIdx < |files| && physOffset <= files[fileIdx].size
      ensures logicalOffset >= total ==> fileIdx == |files| - 1 && physOffset == files[fileIdx].size
      ensures logicalOffset < total ==>
                physOffset < files[fileIdx].size && logicalOffset == files[fileIdx].start + physOffset
    {
      if logicalOffset >= total {
        return |files| - 1, files[|files| - 1].size;
      }
      for i := 0 to |files|
        invariant i < |files| ==> logicalOffset >= files[i].start
        invariant i == |files| ==> logicalOffset >= total
      {
        if logicalOffset < files[i].start + files[i].size {
          return i, logicalOffset - files[i].start;
        }
      }
      assert false;
    }
  }

  /** The non-empty files of generations n..k, oldest first. */
  function Present(disk: Generations, n: nat, k: nat): seq<Bytes>
    decreases n + 1 - k
  {
    if k > n then []
    else Present(disk, n, k + 1) + if k in disk && disk[k] != [] then [disk[k]] else []
  }

  /** Files laid end to end from base. */
  function Layout(contents: seq<Bytes>, base: nat): seq<ChainFile> {
    if contents == [] then []
    else [ChainFile(contents[0], base, |contents[0]|)] + Layout(contents[1..], base + |contents[0]|)
  }

  function Flatten(contents: seq<Bytes>): Bytes {
    if contents == [] then [] else contents[0] + Flatten(contents[1..])
  }

  /** The chain a snapshot of the disk gives. */
  function ChainOf(disk: Generations, maxFiles: nat): FileChain {
    FileChain(Layout(Present(disk, maxFiles, 0), 0), |Flatten(Present(disk, maxFiles, 0))|)
  }

  lemma {:induction false} PresentNonEmpty(disk: Generations, n: nat, k: nat)
    ensures forall i | 0 <= i < |Present(disk, n, k)| :: Present(disk, n, k)[i] != []
    decreases n + 1 - k
  {
    if k <= n {
      PresentNonEmpty(disk, n, k + 1);
    }
  }

  lemma {:induction false} LayoutSnoc(contents: seq<Bytes>, b: Bytes, base: nat)
    ensures Layout(contents + [b], base)
         == Layout(contents, base) + [ChainFile(b, base + |Flatten(contents)|, |b|)]
    ensures Flatten(contents + [b]) == Flatten(contents) + b
  {
    if contents == [] {
      assert contents + [b] == [b];
      LayoutHead([b], base);
    } else {
      var rest, at := contents[1..], base + |contents[0]|;
      assert (contents + [b])[1..] == rest + [b];
      LayoutSnoc(rest, b, at);
      LayoutHead(contents, base);
      LayoutHead(contents + [b], base);
      hide Layout, Flatten;
      Assoc([ChainFile(contents[0], base, |contents[0]|)], Layout(rest, at), [ChainFile(b, at + |Flatten(rest)|, |b|)]);
      Assoc(contents[0], Flatten(rest), b);
    }
  }

  lemma {:induction false} LayoutHead(contents: seq<Bytes>, base: nat)
    requires contents != []
    ensures Layout(contents, base)
         == [ChainFile(contents[0], base, |contents[0]|)] + Layout(contents[1..], base + |contents[0]|)
    ensures Flatten(contents) == contents[0] + Flatten(contents[1..])
  {}

  lemma {:induction false} LayoutValid(contents: seq<Bytes>, base: nat)
    requires forall i | 0 <= i < |contents| :: contents[i] != []
    ensures
      var fs := Layout(contents, base);
      && |fs| == |contents|
      && (forall i | 0 <= i < |fs| :: fs[i].size == |fs[i].data| > 0)
      && (fs != [] ==> fs[0].start == base)
      && (forall i | 0 < i < |fs| :: fs[i].start == fs[i - 1].start + fs[i - 1].size)
      && base + |Flatten(contents)|
         == if fs == [] then base else fs[|fs| - 1].start + fs[|fs| - 1].size
  {
    if contents != [] {
      hide Layout, Flatten;
      var last := |contents| - 1;
      LayoutValid(contents[..last], base);
      LayoutSnoc(contents[..last], contents[last], base);
      assert contents == contents[..last] + [contents[last]];
    }
  }

  lemma {:induction false} ChainOfValid(disk: Generations, maxFiles: nat)
    ensures ChainOf(disk, maxFiles).Valid()
  {
    PresentNonEmpty(disk, maxFiles, 0);
    LayoutValid(Present(disk, maxFiles, 0), 0);
  }

  /** The generations to probe, oldest first and the active file last. */
  method Candidates(maxFiles: nat) returns (gens: seq<nat>)
    ensures |gens| == maxFiles + 1
    ensures forall i | 0 <= i < |gens| :: gens[i] == maxFiles - i
  {
    gens := [];
    var n := maxFiles;
    while n >= 1
      invariant |gens| == maxFiles - n && forall i | 0 <= i < |gens| :: gens[i] == maxFiles - i
    {
      gens := gens + [n];
      n := n - 1;
    }
    gens := gens + [0];
  }

  /** Discovers the chain: the files that are there and not empty, laid end to end. */
  method NewFileChain(disk: Generations, maxFiles: nat) returns (fc: FileChain)
    ensures fc == ChainOf(disk, maxFiles)
    ensures fc.Valid()
  {
    var candidates := Candidates(maxFiles);
    var files, offset := [], 0;
    ghost var found: seq<Bytes> := [];
    for k := 0 to |candidates|
      invariant files == Layout(found, 0) && offset == |Flatten(found)|
      invariant found == Present(disk, maxFiles, maxFiles + 1 - k)
    {
      hide Layout, Flatten, FileChain.Valid;
      var gen := candidates[k];
      if gen in disk && disk[gen] != [] {
        LayoutSnoc(found, disk[gen], 0);
        files := files + [ChainFile(disk[gen], offset, |disk[gen]|)];
        offset := offset + |disk[gen]|;
        found := found + [disk[gen]];
      }
    }
    fc := FileChain(files, offset);
    ChainOfValid(disk, maxFiles);
  }

  /** A generation the chain shows: there, and not empty. */
  predicate Shows(disk: Generations, n: nat) {
    n in disk && disk[n] != []
  }

  /** Generations k to m that the chain shows. */
  function Shown(disk: Generations, m: nat, k: nat): set<nat> {
    set n: nat | k <= n <= m && Shows(disk, n)
  }

  lemma {:induction false} ShownStep(disk: Generations, m: nat, k: nat)
    requires k <= m
    ensures Shown(disk, m, k) == Shown(disk, m, k + 1) + (if Shows(disk, k) then {k} else {})
    ensures |Shown(disk, m, k)| == |Shown(disk, m, k + 1)| + if Shows(disk, k) then 1 else 0
  {
    var rest := Shown(disk, m, k + 1);
    assert k !in rest;
    if Shows(disk, k) {
      assert Shown(disk, m, k) == rest + {k};
    } else {
      assert Shown(disk, m, k) == rest;
    }
  }

  lemma {:induction false} PresentAt(disk: Generations, m: nat, k: nat, g: nat)
    requires k <= g <= m
    ensures |Present(disk, m, k)| == |Shown(disk, m, k)|
    ensures var i := |Shown(disk, m, g + 1)|;
            Shows(disk, g) ==> i < |Present(disk, m, k)| && Present(disk, m, k)[i] == disk[g]
    decreases m - k
  {
    ShownStep(disk, m, k);
    hide Shown;
    if k == m {
      NoneShown(disk, m);
      assert Present(disk, m, m + 1) == [];
    } else {
      PresentAt(disk, m, k + 1, if g == k then k + 1 else g);
    }
  }

  lemma {:induction false} NoneShown(disk: Generations, m: nat)
    ensures Shown(disk, m, m + 1) == {}
  {}

  lemma {:induction false} LayoutData(contents: seq<Bytes>, base: nat)
    ensures |Layout(contents, base)| == |contents|
    ensures forall i | 0 <= i < |contents| :: Layout(contents, base)[i].data == contents[i]
  {
    if contents != [] {
      LayoutData(contents[1..], base + |contents[0]|);
    }
  }

  /**
   The chain has one file for each generation up to maxFiles that is there and not empty, and the one of
   generation g has as many before it as there are such generations above g.
   */
  lemma {:induction false} ChainHolds(disk: Generations, maxFiles: nat, g: nat)
    requires g <= maxFiles
    ensures var fc, above := ChainOf(disk, maxFiles), set n: nat | g < n <= maxFiles && n in disk && disk[n] != [];
            g in disk && disk[g] != [] ==> |above| < |fc.files| && fc.files[|above|].data == disk[g]
    ensures |ChainOf(disk, maxFiles).files| == |set n: nat | n <= maxFiles && n in disk && disk[n] != []|
  {
    LayoutData(Present(disk, maxFiles, 0), 0);
    PresentAt(disk, maxFiles, 0, g);
    assert Shown(disk, maxFiles, g + 1) == set n: nat | g < n <= maxFiles && n in disk && disk[n] != [];
    assert Shown(disk, maxFiles, 0) == set n: nat | n <= maxFiles && n in disk && disk[n] != [];
    hide Present, Layout, Shown;
  }

  // ---- What lies before and after an offset --------------------------------

  /** The lines of one file that end at or before the logical offset o, the last one cut off there. */
  function FileBefore(cf: ChainFile, o: nat): seq<Line> {
    if o <= cf.start then []
    else if o - cf.start >= |cf.data| then LinesOf(cf.data, cf.start)
    else LinesIn(cf.data, 0, o - cf.start, cf.start)
  }

  /** The lines of one file from the logical offset o, as a line scanner delivers them. */
  function FileAfter(cf: ChainFile, o: nat, maxLine: nat): seq<Line> {
    if o <= cf.start then ShortPrefix(LinesOf(cf.data, cf.start), maxLine)
    else if o - cf.start >= |cf.data| then []
    else ShortPrefix(LinesIn(cf.data, o - cf.start, |cf.data|, cf.start), maxLine)
  }

  /** FileBefore over the files before file k. */
  function Before(files: seq<ChainFile>, k: nat, o: nat): seq<Line>
    requires k <= |files|
  {
    if k == 0 then [] else Before(files, k - 1, o) + FileBefore(files[k - 1], o)
  }

  /** FileAfter over the files from file k on. */
  function After(files: seq<ChainFile>, k: nat, o: nat, maxLine: nat): seq<Line>
    requires k <= |files|
    decreases |files| - k
  {
    if k == |files| then [] else FileAfter(files[k], o, maxLine) + After(files, k + 1, o, maxLine)
  }

  /** Every line of the files from file k on. */
  function AllLines(files: seq<ChainFile>, k: nat): seq<Line>
    requires k <= |files|
    decreases |files| - k
  {
    if k == |files| then [] else LinesOf(files[k].data, files[k].start) + AllLines(files, k + 1)
  }

  predicate NoCrIn(files: seq<ChainFile>) {
    forall i | 0 <= i < |files| :: NoCr(files[i].data)
  }

  /** A logical offset at which some file's line can begin, or some file ends. */
  ghost predicate Boundary(files: seq<ChainFile>, o: nat) {
    exists i | 0 <= i < |files| :: AtLineStart(files[i].data, o - files[i].start)
  }

  /** Files in a valid chain are ordered: a later one starts where or after an earlier one ends. */
  lemma {:induction false} StartsOrdered(fc: FileChain, i: nat, j: nat)
    requires fc.Valid() && i < j < |fc.files|
    ensures fc.files[i].start + fc.files[i].size <= fc.files[j].start
    decreases j
  {
    if i < j - 1 {
      StartsOrdered(fc, i, j - 1);
    }
  }
}
