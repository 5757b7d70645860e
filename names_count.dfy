/** Model of names_count.c: the table of generated probe hostnames and their hit flags.

    The C file keeps three globals: a character buffer `search_names` split into fixed-size
    slots, a byte array `search_hits` and the slot count `search_n`.  They become the fields
    of the class ProbeTable.  `rand()` is replaced by an explicit sequence of draws.
 */
module NamesCount {

  datatype Option<T> = None | Some(value: T)

  // ---------------------------------------------------------------------------
  // Constants of names_count.h and the slot layout of names_count.c
  // ---------------------------------------------------------------------------

  const PrefixMinLength: nat := 6
  const PrefixMaxLength: nat := 9
  const PrefixCharset: string := "abcdefghijklmnopqrstuvwxyz"
  const Suffix: string := ".com"
  const Nul: char := '\0'

  /** NAME_TOTAL_SIZE: the longest prefix plus sizeof(NAME_SUFFIX), which counts the terminator. */
  const NameTotalSize: nat := PrefixMaxLength + |Suffix| + 1

  /** NAME_NTH(i): the offset of slot i in the name buffer. */
  function NameNth(i: nat): (offset: nat)
    ensures offset % NameTotalSize == 0 && offset / NameTotalSize == i
  {
    i * NameTotalSize
  }

  /** The shape every generated name has: 6 to 9 letters of the charset, then ".com". */
  predicate ValidProbeName(s: string) {
    PrefixMinLength + |Suffix| <= |s| <= PrefixMaxLength + |Suffix| &&
    s[|s| - |Suffix|..] == Suffix &&
    forall k :: 0 <= k < |s| - |Suffix| ==> 'a' <= s[k] <= 'z'
  }

  /** Every name has the probe shape (instantiated only where a name's shape is asked for). */
  predicate AllValid(ns: seq<string>) {
    forall k {:trigger ValidProbeName(ns[k])} :: 0 <= k < |ns| ==> ValidProbeName(ns[k])
  }

  /** A valid name and its terminator fit in one slot, and the name holds no NUL. */
  lemma ValidNameFitsSlot(s: string)
    requires ValidProbeName(s)
    ensures |s| + 1 <= NameTotalSize
    ensures Nul !in s
  {
    forall k | 0 <= k < |s|
      ensures s[k] != Nul
    {
      if k >= |s| - |Suffix| {
        assert s[k] == s[|s| - |Suffix|..][k - (|s| - |Suffix|)];
      }
    }
  }

  // ---------------------------------------------------------------------------
  // random_name: the draws of rand() are an explicit input
  // ---------------------------------------------------------------------------

  /** Length of the random prefix chosen by the first draw. */
  function NameLength(d: nat): (len: nat) {
    PrefixMinLength + d % (PrefixMaxLength - PrefixMinLength + 1)
  }

  /** The draws hold the length draw and one draw per prefix character. */
  predicate EnoughForName(draws: seq<nat>) {
    |draws| > 0 && |draws| > NameLength(draws[0])
  }

  function DrawsPerName(draws: seq<nat>): (n: nat)
    requires |draws| > 0
  {
    1 + NameLength(draws[0])
  }

  /** The prefix character picked by one draw: charset[d % (sizeof(charset) - 1)]. */
  function CharOf(d: nat): (c: char) {
    PrefixCharset[d % |PrefixCharset|]
  }

  function PrefixFrom(draws: seq<nat>, len: nat): (p: string)
    requires len < |draws|
    ensures |p| == len
  {
    seq(len, k requires 0 <= k < len => CharOf(draws[1 + k]))
  }

  /** The name random_name() builds from the draws it consumes. */
  function NameFrom(draws: seq<nat>): (name: string)
    requires EnoughForName(draws)
  {
    PrefixFrom(draws, NameLength(draws[0])) + Suffix
  }

  /** Every name built from draws has the probe shape. */
  lemma NameFromIsValid(draws: seq<nat>)
    requires EnoughForName(draws)
    ensures ValidProbeName(NameFrom(draws))
    ensures |NameFrom(draws)| == NameLength(draws[0]) + |Suffix|
  {
    var s := NameFrom(draws);
    var len := NameLength(draws[0]);
    assert s[|s| - |Suffix|..] == Suffix;
    forall k | 0 <= k < |s| - |Suffix|
      ensures 'a' <= s[k] <= 'z'
    {
      assert s[k] == CharOf(draws[1 + k]);
      assert PrefixCharset[draws[1 + k] % 26] in PrefixCharset;
    }
  }

  /** random_name(): one length draw, then one draw per prefix character, then ".com". */
  method RandomName(draws: seq<nat>) returns (name: string, used: nat)
    requires EnoughForName(draws)
    ensures used == DrawsPerName(draws) && used <= |draws|
    ensures name == NameFrom(draws)
    ensures ValidProbeName(name)
  {
    var len := PrefixMinLength + draws[0] % (PrefixMaxLength - PrefixMinLength + 1);
    var rv: string := [];
    var i := 0;
    while i < len
      invariant 0 <= i <= len
      invariant rv == PrefixFrom(draws, i)
    {
      rv := rv + [PrefixCharset[draws[1 + i] % |PrefixCharset|]];
      i := i + 1;
    }
    name := rv + Suffix;
    used := 1 + len;
    NameFromIsValid(draws);
  }

  /** There are draws for n consecutive names. */
  predicate EnoughForNames(n: nat, draws: seq<nat>)
    decreases n
  {
    n == 0 || (EnoughForName(draws) && EnoughForNames(n - 1, draws[DrawsPerName(draws)..]))
  }

  /** The n names names_generate(n) produces from the draws, in slot order. */
  function NamesFrom(n: nat, draws: seq<nat>): (ns: seq<string>)
    requires EnoughForNames(n, draws)
    ensures |ns| == n
    ensures AllValid(ns)
    decreases n
  {
    if n == 0 then []
    else
      NameFromIsValid(draws);
      [NameFrom(draws)] + NamesFrom(n - 1, draws[DrawsPerName(draws)..])
  }

  // ---------------------------------------------------------------------------
  // The name buffer as characters
  // ---------------------------------------------------------------------------

  function Zeros(n: nat): (z: seq<char>)
    ensures |z| == n
  {
    seq(n, _ => Nul)
  }

  /** A name leaves room for its terminator in one slot. */
  predicate Fits(s: string) {
    |s| < NameTotalSize
  }

  /** A slot holding s: the characters, the terminator and the zero padding left by calloc. */
  function Slot(s: string): (b: seq<char>)
    requires Fits(s)
    ensures |b| == NameTotalSize
  {
    s + Zeros(NameTotalSize - |s|)
  }

  /** Every name fits its slot (instantiated only where a name's fit is asked for). */
  predicate AllFit(ns: seq<string>) {
    forall k {:trigger Fits(ns[k])} :: 0 <= k < |ns| ==> Fits(ns[k])
  }

  /** The whole buffer once every slot holds its name. */
  function Layout(ns: seq<string>): (b: seq<char>)
    requires AllFit(ns)
    ensures |b| == |ns| * NameTotalSize
  {
    if ns == [] then [] else Layout(ns[..|ns| - 1]) + Slot(ns[|ns| - 1])
  }

  /** The C string starting at the front of b: every character before the first NUL. */
  function CString(b: seq<char>): (s: string)
    ensures |s| <= |b|
  {
    if b == [] || b[0] == Nul then [] else [b[0]] + CString(b[1..])
  }

  /** Reading a C string back from a terminated copy of s gives s. */
  lemma {:induction false} CStringOfTerminated(s: string, rest: seq<char>)
    requires Nul !in s
    ensures CString(s + [Nul] + rest) == s
  {
    if s != [] {
      assert (s + [Nul] + rest)[1..] == s[1..] + [Nul] + rest;
      CStringOfTerminated(s[1..], rest);
    }
  }

  /** Slot i of the laid-out buffer is the slot of the i-th name. */
  lemma {:induction false} LayoutSlot(ns: seq<string>, i: nat)
    requires AllFit(ns) && i < |ns|
    ensures Layout(ns)[NameNth(i)..NameNth(i) + NameTotalSize] == Slot(ns[i])
  {
    var init := ns[..|ns| - 1];
    assert Layout(ns) == Layout(init) + Slot(ns[|ns| - 1]);
    if i < |ns| - 1 {
      LayoutSlot(init, i);
      assert Layout(ns)[NameNth(i)..NameNth(i) + NameTotalSize]
          == Layout(init)[NameNth(i)..NameNth(i) + NameTotalSize];
    }
  }

  lemma ZerosAppend(x: nat, y: nat)
    ensures Zeros(x) + Zeros(y) == Zeros(x + y)
  {
  }

  /** strcpy into the first zeroed slot after front writes that slot and leaves the rest zero. */
  lemma FillSlot(front: seq<char>, name: string, m: nat)
    requires Fits(name) && m > 0
    ensures var b := front + Zeros(m * NameTotalSize);
            b[..|front|] + name + [Nul] + b[|front| + |name| + 1..]
              == front + Slot(name) + Zeros((m - 1) * NameTotalSize)
  {
    var b := front + Zeros(m * NameTotalSize);
    var tail := m * NameTotalSize - |name| - 1;
    assert b[..|front|] == front;
    assert b[|front| + |name| + 1..] == Zeros(tail);
    ZerosAppend(1, tail);
    ZerosAppend(NameTotalSize - |name|, (m - 1) * NameTotalSize);
  }

  /** Appending a name appends its slot to the layout. */
  lemma LayoutAppend(ns: seq<string>, name: string)
    requires AllFit(ns) && Fits(name)
    ensures AllFit(ns + [name])
    ensures Layout(ns + [name]) == Layout(ns) + Slot(name)
  {
    assert (ns + [name])[..|ns|] == ns;
  }

  /** The buffer while names_generate runs: the first |ns| slots are written, the rest are zero. */
  ghost predicate PartlyFilled(b: seq<char>, ns: seq<string>, n: nat) {
    AllFit(ns) && |ns| <= n && b == Layout(ns) + Zeros((n - |ns|) * NameTotalSize)
  }

  /** The buffer after names_generate copies the next name into the first unwritten slot. */
  lemma WriteNextSlot(ns: seq<string>, name: string, n: nat, before: seq<char>, after: seq<char>)
    requires PartlyFilled(before, ns, n) && |ns| < n && Fits(name)
    requires after == before[..NameNth(|ns|)] + name + [Nul] + before[NameNth(|ns|) + |name| + 1..]
    ensures PartlyFilled(after, ns + [name], n)
  {
    FillSlot(Layout(ns), name, n - |ns|);
    LayoutAppend(ns, name);
  }

  /** The library strcpy: src and its terminator are written at off, nothing else changes. */
  method StrCpy(dst: array<char>, off: nat, src: string)
    requires off + |src| < dst.Length
    modifies dst
    ensures dst[..] == old(dst[..])[..off] + src + [Nul] + old(dst[..])[off + |src| + 1..]
  {
    forall k | 0 <= k < |src| {
      dst[off + k] := src[k];
    }
    dst[off + |src|] := Nul;
    assert dst[..] == old(dst[..])[..off] + src + [Nul] + old(dst[..])[off + |src| + 1..];
  }

  // ---------------------------------------------------------------------------
  // Marking and counting, on values
  // ---------------------------------------------------------------------------

  /** The index of the first name equal to x, or |ns| when there is none. */
  function IndexOf(ns: seq<string>, x: string): (k: nat)
    ensures k <= |ns|
    ensures k < |ns| ==> ns[k] == x
    ensures forall j :: 0 <= j < k ==> ns[j] != x
  {
    if ns == [] then 0
    else if ns[0] == x then 0
    else 1 + IndexOf(ns[1..], x)
  }

  /** The hit flags after names_mark(x): the flag of the first name equal to x is set. */
  function MarkHits(ns: seq<string>, h: seq<bool>, x: string): (r: seq<bool>)
    requires |h| == |ns|
    ensures |r| == |h|
  {
    var k := IndexOf(ns, x);
    if k < |ns| then h[k := true] else h
  }

  /** The number of set flags, counted front to back as names_get_marked() does. */
  function CountTrue(h: seq<bool>): (c: nat)
    ensures c <= |h|
  {
    if h == [] then 0
    else CountTrue(h[..|h| - 1]) + (if h[|h| - 1] then 1 else 0)
  }

  function HitIndices(h: seq<bool>): (s: set<nat>) {
    set k: nat | k < |h| && h[k]
  }

  /** The count is the number of indices whose flag is set. */
  lemma {:induction false} CountTrueIsCardinality(h: seq<bool>)
    ensures CountTrue(h) == |HitIndices(h)|
  {
    if h != [] {
      var init := h[..|h| - 1];
      CountTrueIsCardinality(init);
      var last := |h| - 1;
      assert HitIndices(h) == HitIndices(init) + (if h[last] then {last} else {});
      assert last !in HitIndices(init);
    }
  }

  /** The count is nonzero exactly when some flag is set. */
  lemma CountTruePositive(h: seq<bool>)
    ensures CountTrue(h) > 0 <==> exists k :: 0 <= k < |h| && h[k]
  {
    CountTrueIsCardinality(h);
    if exists k :: 0 <= k < |h| && h[k] {
      var k :| 0 <= k < |h| && h[k];
      assert k in HitIndices(h);
    } else {
      assert HitIndices(h) == {};
    }
  }

  /** Setting one flag raises the count by one if it was clear and leaves it otherwise. */
  lemma {:induction false} CountTrueSet(h: seq<bool>, k: nat)
    requires k < |h|
    ensures CountTrue(h[k := true]) == CountTrue(h) + (if h[k] then 0 else 1)
  {
    var h' := h[k := true];
    var last := |h| - 1;
    assert h'[..last] == if k < last then h[..last][k := true] else h[..last];
    if k < last {
      CountTrueSet(h[..last], k);
    }
  }

  /** Turning flags on, never off, does not lower the count. */
  lemma {:induction false} CountTrueMonotone(h: seq<bool>, g: seq<bool>)
    requires |h| == |g|
    requires forall k :: 0 <= k < |h| && h[k] ==> g[k]
    ensures CountTrue(h) <= CountTrue(g)
  {
    if h != [] {
      CountTrueMonotone(h[..|h| - 1], g[..|g| - 1]);
    }
  }

  /** names_mark sets exactly the flag of the lowest index holding x and no other. */
  lemma MarkHitsSetsFirstMatch(ns: seq<string>, h: seq<bool>, x: string)
    requires |h| == |ns|
    ensures var r := MarkHits(ns, h, x);
            forall j :: 0 <= j < |h| ==>
              r[j] == (h[j] || (ns[j] == x && forall m :: 0 <= m < j ==> ns[m] != x))
  {
  }

  /** A name that is not stored changes no flag. */
  lemma MarkHitsAbsent(ns: seq<string>, h: seq<bool>, x: string)
    requires |h| == |ns| && x !in ns
    ensures MarkHits(ns, h, x) == h
  {
  }

  /** Marking twice with the same name gives the state of marking once. */
  lemma MarkHitsIdempotent(ns: seq<string>, h: seq<bool>, x: string)
    requires |h| == |ns|
    ensures MarkHits(ns, MarkHits(ns, h, x), x) == MarkHits(ns, h, x)
  {
  }

  /** Marking raises the count by at most one and never lowers it; a stored name leaves it positive. */
  lemma MarkHitsCount(ns: seq<string>, h: seq<bool>, x: string)
    requires |h| == |ns|
    ensures CountTrue(h) <= CountTrue(MarkHits(ns, h, x)) <= CountTrue(h) + 1
    ensures x in ns ==> CountTrue(MarkHits(ns, h, x)) >= 1
    ensures x !in ns ==> CountTrue(MarkHits(ns, h, x)) == CountTrue(h)
  {
    var k := IndexOf(ns, x);
    if k < |ns| {
      CountTrueSet(h, k);
      assert h[k := true][k];
      CountTruePositive(h[k := true]);
    } else {
      MarkHitsAbsent(ns, h, x);
    }
  }

  /** Round trip: marking the i-th stored name finds it, at index i or an earlier duplicate. */
  lemma MarkStoredName(ns: seq<string>, h: seq<bool>, i: nat)
    requires |h| == |ns| && i < |ns|
    ensures IndexOf(ns, ns[i]) <= i
    ensures MarkHits(ns, h, ns[i])[IndexOf(ns, ns[i])]
    ensures CountTrue(MarkHits(ns, h, ns[i])) >= 1
  {
    MarkHitsCount(ns, h, ns[i]);
  }

  // ---------------------------------------------------------------------------
  // The table itself
  // ---------------------------------------------------------------------------

  /** The slot loop of names_generate: slot i receives the i-th name drawn by random_name. */
  method FillSlots(buf: array<char>, n: nat, draws: seq<nat>) returns (ghost ns: seq<string>)
    requires EnoughForNames(n, draws)
    requires buf[..] == Zeros(n * NameTotalSize)
    modifies buf
    ensures ns == NamesFrom(n, draws)
    ensures AllFit(ns) && buf[..] == Layout(ns)
  {
    assert NameTotalSize == 14;
    ns := [];
    var i := 0;
    var rest := draws;
    while i < n
      invariant 0 <= i <= n
      invariant EnoughForNames(n - i, rest)
      invariant ns + NamesFrom(n - i, rest) == NamesFrom(n, draws)
      invariant |ns| == i
      invariant PartlyFilled(buf[..], ns, n)
    {
      var name, used := RandomName(rest);
      ValidNameFitsSlot(name);
      ghost var before := buf[..];
      assert |before| == n * NameTotalSize;
      StrCpy(buf, NameNth(i), name);
      WriteNextSlot(ns, name, n, before, buf[..]);
      assert NamesFrom(n - i, rest) == [name] + NamesFrom(n - i - 1, rest[used..]);
      ns := ns + [name];
      rest := rest[used..];
      i := i + 1;
    }
    assert PartlyFilled(buf[..], ns, n);
    assert Zeros(0) == [];
  }

  class ProbeTable {
    /** search_names: n slots of NameTotalSize characters; null before names_generate. */
    var searchNames: array?<char>
    /** search_hits: one flag per slot; null before names_generate. */
    var searchHits: array?<bool>
    /** search_n: the number of slots, -1 before names_generate. */
    var searchN: int
    /** The names the slots hold. */
    ghost var names: seq<string>

    ghost predicate Valid()
      reads this, searchNames, searchHits
    {
      if searchN < 0 then
        searchNames == null && searchHits == null && names == []
      else
        searchNames != null && searchHits != null &&
        |names| == searchN && AllValid(names) && AllFit(names) &&
        searchHits.Length == searchN && searchNames.Length == searchN * NameTotalSize &&
        forall i {:trigger Slot(names[i])} :: 0 <= i < searchN ==>
          searchNames[NameNth(i)..NameNth(i) + NameTotalSize] == Slot(names[i])
    }

    /** The hit flags as a sequence (empty while nothing is allocated). */
    ghost function Hits(): (h: seq<bool>)
      reads this, searchNames, searchHits
      requires Valid()
      ensures |h| == |names|
    {
      if searchHits == null then [] else searchHits[..]
    }

    /** The globals as the program starts: no buffers and search_n == -1. */
    constructor ()
      ensures Valid()
      ensures searchN == -1 && names == [] && Hits() == []
    {
      searchNames := null;
      searchHits := null;
      searchN := -1;
      names := [];
    }

    /** names_generate(n): allocate zeroed buffers and fill slot i with the i-th random name. */
    method Generate(n: int, draws: seq<nat>)
      requires n < 0 || EnoughForNames(n, draws)
      modifies this
      ensures Valid() && searchN == n
      ensures names == (if n < 0 then [] else NamesFrom(n, draws))
      ensures Hits() == seq(|names|, _ => false) && CountTrue(Hits()) == 0
      ensures n >= 0 ==> fresh(searchNames) && fresh(searchHits)
    {
      if n < 0 {
        // a negative count becomes a huge size_t, both callocs return NULL and the slot loop does not run
        searchNames := null;
        searchHits := null;
        searchN := n;
        names := [];
        return;
      }
      assert NameTotalSize == 14;
      var buf := new char[n * NameTotalSize](_ => Nul);
      var hits := new bool[n](_ => false);
      searchNames, searchHits, searchN := buf, hits, n;
      var ns := FillSlots(buf, n, draws);
      names := ns;
      forall i | 0 <= i < n
        ensures buf[NameNth(i)..NameNth(i) + NameTotalSize] == Slot(ns[i])
      {
        LayoutSlot(ns, i);
      }
      CountTruePositive(hits[..]);
    }

    /** The C string read from slot i (strcmp and the caller of names_get_nth see this). */
    function NameAt(i: nat): (s: string)
      reads this, searchNames, searchHits
      requires Valid() && i < searchN
      ensures s == names[i]
    {
      ValidNameFitsSlot(names[i]);
      var off := NameNth(i);
      var b := searchNames[..];
      assert b[off..off + NameTotalSize] == Slot(names[i]);
      var rest := Zeros(NameTotalSize - |names[i]| - 1) + b[off + NameTotalSize..];
      ZerosAppend(1, NameTotalSize - |names[i]| - 1);
      assert b[off..] == b[off..off + NameTotalSize] + b[off + NameTotalSize..];
      assert b[off..] == names[i] + [Nul] + rest;
      CStringOfTerminated(names[i], rest);
      CString(searchNames[NameNth(i)..])
    }

    /** names_get_nth(i): the name in slot i, or NULL (None) outside 0 <= i < search_n. */
    function GetNth(i: int): (r: Option<string>)
      reads this, searchNames, searchHits
      requires Valid()
      ensures r.Some? <==> 0 <= i < |names|
      ensures r.Some? ==> r.value == names[i] && ValidProbeName(r.value)
    {
      if i < 0 || i >= searchN then None else Some(NameAt(i))
    }

    /** names_mark(name): set the hit of the first slot equal to name; 1 if found, else 0. */
    method Mark(name: string) returns (r: int)
      requires Valid()
      modifies searchHits
      ensures Valid() && names == old(names)
      ensures r == (if name in names then 1 else 0)
      ensures Hits() == MarkHits(names, old(Hits()), name)
    {
      var i := 0;
      while i < searchN
        invariant 0 <= i <= |names|
        invariant forall j :: 0 <= j < i ==> names[j] != name
      {
        if name == NameAt(i) {
          searchHits[i] := true;
          return 1;
        }
        i := i + 1;
      }
      return 0;
    }

    /** names_get_marked(): the number of set hits. */
    method GetMarked() returns (count: int)
      requires Valid()
      ensures count == CountTrue(Hits())
      ensures 0 <= count <= |names|
    {
      count := 0;
      var i := 0;
      while i < searchN
        invariant 0 <= i <= |names|
        invariant count == CountTrue(Hits()[..i])
      {
        assert Hits()[..i + 1][..i] == Hits()[..i];
        count := count + if searchHits[i] then 1 else 0;
        i := i + 1;
      }
      assert Hits()[..i] == Hits();
    }

    /** names_end(): free both buffers; search_n is left as it was. */
    method End()
      modifies this
      ensures searchNames == null && searchHits == null
      ensures searchN == old(searchN) && names == old(names)
      ensures searchN < 0 && names == [] ==> Valid()
    {
      if searchNames != null {
        searchNames := null;
      }
      if searchHits != null {
        searchHits := null;
      }
    }
  }
}
