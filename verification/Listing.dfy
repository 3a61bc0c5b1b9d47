/** Recursive directory listing: the explicit stack against the recursion it replaces. */
module Listing {
  import opened Wire

  /** Paths as sequences of components. */
  type Path = seq<string>

  /**
   A finite directory tree as the walk sees it. `Entries` holds what the directory stream yields before it ends or
   fails; metadata that cannot be read and symbolic links hide whatever is below them.
   */
  datatype Entry = Entry(name: string, meta: Meta)
  datatype Meta = MetaError | Symlink | File(len: u64) | Dir(len: u64, contents: Contents)
  datatype Contents = Unreadable | Entries(es: seq<Entry>)

  datatype Item = Item(path: Path, isDir: bool, size: u64)

  function Relative(path: Path, workingDirectory: Path): Path {
    if workingDirectory <= path then path[|workingDirectory|..] else path
  }

  /** A path is listed relative to the working directory if it lies below it, and as it is otherwise. */
  lemma RelativeStrips(wd: Path, rest: Path, p: Path)
    ensures Relative(wd + rest, wd) == rest
    ensures (forall r: Path :: p != wd + r) ==> Relative(p, wd) == p
  {
    if wd <= p {
      assert p == wd + p[|wd|..];
    }
  }

  // ----- the recursive listing

  function ListDir(path: Path, c: Contents, wd: Path): seq<Item>
    decreases c
  {
    match c
    case Unreadable => []
    case Entries(es) => ListEntries(path, es, wd)
  }

  function ListEntries(path: Path, es: seq<Entry>, wd: Path): seq<Item>
    decreases es
  {
    if es == [] then [] else ListEntry(path, es[0], wd) + ListEntries(path, es[1..], wd)
  }

  /** An entry, then everything below it. */
  function ListEntry(path: Path, e: Entry, wd: Path): seq<Item>
    decreases e
  {
    var p := path + [e.name];
    match e.meta
    case MetaError => []
    case Symlink => []
    case File(len) => [Item(Relative(p, wd), false, len)]
    case Dir(len, contents) => [Item(Relative(p, wd), true, len)] + ListDir(p, contents, wd)
  }

  // ----- which entries that is: those reached through readable directories, none of them a link

  predicate Listable(e: Entry) {
    e.meta.File? || e.meta.Dir?
  }

  /** A chain of entries from a directory down to a listable one. */
  ghost predicate Chain(c: Contents, chain: seq<Entry>)
    decreases |chain|
  {
    chain != [] && c.Entries? && chain[0] in c.es
    && if |chain| == 1 then Listable(chain[0])
       else chain[0].meta.Dir? && Chain(chain[0].meta.contents, chain[1..])
  }

  ghost function ChainItem(path: Path, chain: seq<Entry>, wd: Path): Item
    requires chain != [] && Listable(chain[|chain| - 1])
    decreases |chain|
  {
    var p := path + [chain[0].name];
    if |chain| == 1 then Item(Relative(p, wd), chain[0].meta.Dir?, chain[0].meta.len)
    else ChainItem(p, chain[1..], wd)
  }

  lemma {:induction false} EntryIsListed(path: Path, es: seq<Entry>, e: Entry, item: Item, wd: Path)
    requires e in es && item in ListEntry(path, e, wd)
    ensures item in ListEntries(path, es, wd)
    decreases |es|
  {
    if e != es[0] {
      EntryIsListed(path, es[1..], e, item, wd);
    }
  }

  lemma {:induction false} ChainIsListed(path: Path, c: Contents, chain: seq<Entry>, wd: Path)
    requires Chain(c, chain) && Listable(chain[|chain| - 1])
    ensures ChainItem(path, chain, wd) in ListDir(path, c, wd)
    decreases |chain|
  {
    if |chain| > 1 {
      ChainIsListed(path + [chain[0].name], chain[0].meta.contents, chain[1..], wd);
    }
    EntryIsListed(path, c.es, chain[0], ChainItem(path, chain, wd), wd);
  }

  lemma {:induction false} ListedHasEntry(path: Path, es: seq<Entry>, item: Item, wd: Path) returns (e: Entry)
    requires item in ListEntries(path, es, wd)
    ensures e in es && item in ListEntry(path, e, wd)
    decreases |es|
  {
    if item in ListEntry(path, es[0], wd) {
      e := es[0];
    } else {
      e := ListedHasEntry(path, es[1..], item, wd);
    }
  }

  lemma {:induction false} ListedHasChain(path: Path, c: Contents, item: Item, wd: Path) returns (chain: seq<Entry>)
    requires item in ListDir(path, c, wd)
    ensures Chain(c, chain) && Listable(chain[|chain| - 1]) && ChainItem(path, chain, wd) == item
    decreases c
  {
    var e := ListedHasEntry(path, c.es, item, wd);
    if e.meta.Dir? && item in ListDir(path + [e.name], e.meta.contents, wd) {
      var rest := ListedHasChain(path + [e.name], e.meta.contents, item, wd);
      chain := [e] + rest;
      assert chain[1..] == rest;
    } else {
      chain := [e];
    }
  }

  /** The recursive listing names exactly the non-link entries below the root that readable directories lead to. */
  lemma ListedIffReachable(path: Path, c: Contents, item: Item, wd: Path)
    ensures item in ListDir(path, c, wd) <==>
            exists chain :: Chain(c, chain) && Listable(chain[|chain| - 1]) && ChainItem(path, chain, wd) == item
  {
    if item in ListDir(path, c, wd) {
      var chain := ListedHasChain(path, c, item, wd);
    }
    forall chain | Chain(c, chain) && Listable(chain[|chain| - 1]) && ChainItem(path, chain, wd) == item
      ensures item in ListDir(path, c, wd)
    {
      ChainIsListed(path, c, chain, wd);
    }
  }

  function Size(c: Contents): nat {
    match c
    case Unreadable => 1
    case Entries(es) => 1 + EntriesSize(es)
  }

  function EntriesSize(es: seq<Entry>): nat {
    if es == [] then 0
    else (match es[0].meta case Dir(_, contents) => Size(contents) case _ => 0) + EntriesSize(es[1..])
  }

  // ----- the stack

  datatype Pending = Pending(path: Path, contents: Contents)

  function StackSize(stack: seq<Pending>): nat {
    if stack == [] then 0 else StackSize(stack[..|stack| - 1]) + Size(stack[|stack| - 1].contents)
  }

  ghost function StackItems(stack: seq<Pending>, wd: Path): multiset<Item> {
    if stack == [] then multiset{}
    else StackItems(stack[..|stack| - 1], wd)
         + multiset(ListDir(stack[|stack| - 1].path, stack[|stack| - 1].contents, wd))
  }

  lemma StackPush(stack: seq<Pending>, d: Pending, wd: Path)
    ensures StackSize(stack + [d]) == StackSize(stack) + Size(d.contents)
    ensures StackItems(stack + [d], wd) == StackItems(stack, wd) + multiset(ListDir(d.path, d.contents, wd))
  {
    assert (stack + [d])[..|stack + [d]| - 1] == stack;
  }

  /** What handling one entry adds to the list and to the stack. */
  function Found(path: Path, e: Entry, wd: Path): seq<Item> {
    var p := path + [e.name];
    match e.meta
    case File(len) => [Item(Relative(p, wd), false, len)]
    case Dir(len, _) => [Item(Relative(p, wd), true, len)]
    case _ => []
  }

  function Below(path: Path, e: Entry): seq<Pending> {
    if e.meta.Dir? then [Pending(path + [e.name], e.meta.contents)] else []
  }

  lemma EntrySplits(path: Path, es: seq<Entry>, stack: seq<Pending>, wd: Path)
    requires es != []
    ensures multiset(ListEntries(path, es, wd)) + StackItems(stack, wd) ==
            multiset(Found(path, es[0], wd)) + multiset(ListEntries(path, es[1..], wd)) + StackItems(stack + Below(path, es[0]), wd)
    ensures EntriesSize(es) + StackSize(stack) == EntriesSize(es[1..]) + StackSize(stack + Below(path, es[0]))
  {
    var e := es[0];
    if e.meta.Dir? {
      StackPush(stack, Pending(path + [e.name], e.meta.contents), wd);
    } else {
      assert stack + [] == stack;
    }
  }

  /** The handler's work on one entry. */
  method HandleEntry(path: Path, e: Entry, wd: Path, files: seq<Item>, stack: seq<Pending>)
    returns (files': seq<Item>, stack': seq<Pending>)
    ensures files' == files + Found(path, e, wd)
    ensures stack' == stack + Below(path, e)
  {
    files', stack' := files, stack;
    var p := path + [e.name];
    match e.meta {
      case MetaError =>
      case Symlink =>
      case File(len) =>
        files' := files' + [Item(Relative(p, wd), false, len)];
      case Dir(len, contents) =>
        files' := files' + [Item(Relative(p, wd), true, len)];
        stack' := stack' + [Pending(p, contents)];
    }
  }

  /** What is listed, what is left of the current directory and what is on the stack make up the whole. */
  ghost predicate Accounted(files: seq<Item>, path: Path, es: seq<Entry>, stack: seq<Pending>, wd: Path, all: multiset<Item>) {
    multiset(files) + (multiset(ListEntries(path, es, wd)) + StackItems(stack, wd)) == all
  }

  lemma EntryAccounted(files: seq<Item>, path: Path, es: seq<Entry>, stack: seq<Pending>, wd: Path, all: multiset<Item>)
    requires es != [] && Accounted(files, path, es, stack, wd, all)
    ensures Accounted(files + Found(path, es[0], wd), path, es[1..], stack + Below(path, es[0]), wd, all)
    ensures EntriesSize(es) + StackSize(stack) == EntriesSize(es[1..]) + StackSize(stack + Below(path, es[0]))
  {
    hide StackItems, ListEntries, Found, Below;
    EntrySplits(path, es, stack, wd);
  }

  lemma PopAccounted(files: seq<Item>, stack: seq<Pending>, wd: Path, all: multiset<Item>)
    requires stack != [] && multiset(files) + StackItems(stack, wd) == all
    ensures var d := stack[|stack| - 1];
            var rest := stack[..|stack| - 1];
            StackSize(rest) + Size(d.contents) == StackSize(stack)
            && match d.contents
               case Unreadable => multiset(files) + StackItems(rest, wd) == all
               case Entries(es) => Accounted(files, d.path, es, rest, wd, all)
  {
    hide ListEntries;
  }

  /** The walk ends and yields the recursive listing, each entry as often as it occurs there. */
  method Walk(root: Path, contents: Contents, wd: Path) returns (files: seq<Item>)
    ensures multiset(files) == multiset(ListDir(root, contents, wd))
  {
    files := [];
    var stack := [Pending(root, contents)];
    ghost var all := multiset(ListDir(root, contents, wd));
    StackPush([], stack[0], wd);
    assert [] + stack == stack;
    hide ListDir, ListEntries, EntriesSize, Found, Below, Accounted;
    while stack != []
      invariant multiset(files) + StackItems(stack, wd) == all
      decreases StackSize(stack)
    {
      var d := stack[|stack| - 1];
      ghost var size := StackSize(stack);
      PopAccounted(files, stack, wd, all);
      stack := stack[..|stack| - 1];
      if d.contents.Entries? {
        files, stack := ReadDirInto(d.path, d.contents.es, wd, files, stack, all);
      }
    }
  }

  method ReadDirInto(path: Path, es: seq<Entry>, wd: Path, files: seq<Item>, stack: seq<Pending>, ghost all: multiset<Item>)
    returns (files': seq<Item>, stack': seq<Pending>)
    requires Accounted(files, path, es, stack, wd, all)
    ensures multiset(files') + StackItems(stack', wd) == all
    ensures StackSize(stack') == EntriesSize(es) + StackSize(stack)
  {
    hide ListEntries, EntriesSize, Found, Below, Accounted, StackItems, StackSize;
    files', stack' := files, stack;
    var i := 0;
    assert es[0..] == es;
    while i < |es|
      invariant i <= |es|
      invariant Accounted(files', path, es[i..], stack', wd, all)
      invariant EntriesSize(es[i..]) + StackSize(stack') == EntriesSize(es) + StackSize(stack)
    {
      EntryAccounted(files', path, es[i..], stack', wd, all);
      assert es[i..][0] == es[i] && es[i..][1..] == es[i + 1..];
      files', stack' := HandleEntry(path, es[i], wd, files', stack');
      i := i + 1;
    }
    assert es[i..] == [];
    AllRead(files', path, stack', wd, all);
  }

  lemma AllRead(files: seq<Item>, path: Path, stack: seq<Pending>, wd: Path, all: multiset<Item>)
    requires Accounted(files, path, [], stack, wd, all)
    ensures multiset(files) + StackItems(stack, wd) == all
    ensures EntriesSize([]) == 0
  {
  }
}
