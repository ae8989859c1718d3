/** The disk, and where a finished upload is saved on it: the numbered names tried on a collision. */
module FinalName {
  import opened Wire

  datatype Path = Path(dir: string, name: string)

  type Files = map<Path, seq<byte>>

  /** The files on a volume and the bytes it still takes. */
  datatype Disk = Disk(files: Files, room: nat)

  function SizeAt(files: Files, p: Path): nat {
    if p in files then |files[p]| else 0
  }

  /** The bytes that a file opened anew at `p` can grow to. */
  function RoomFor(d: Disk, p: Path): nat {
    d.room + SizeAt(d.files, p)
  }

  function Truncated(d: Disk, p: Path): Disk {
    Disk(d.files[p := []], RoomFor(d, p))
  }

  function Removed(d: Disk, p: Path): Disk {
    Disk(d.files - {p}, RoomFor(d, p))
  }

  /** After a write at the end of an open file: what does not fit is lost, and so is what goes to a
      file that has been removed. */
  function Written(d: Disk, p: Path, data: seq<byte>): Disk {
    var kept := Taken(data, d.room);
    Disk(if p in d.files then d.files[p := d.files[p] + kept] else d.files, d.room - |kept|)
  }

  function Renamed(d: Disk, from: Path, to: Path): Disk
    requires from in d.files
  {
    d.(files := (d.files - {from})[to := d.files[from]])
  }

  // ---- No byte of the volume is gained or lost ----

  /** The bytes that all files take. */
  ghost function Used(files: Files): nat {
    if files == map[] then 0 else
    var p :| p in files;
    |files[p]| + Used(files - {p})
  }

  lemma {:induction false} UsedBut(files: Files, p: Path)
    requires p in files
    ensures Used(files) == |files[p]| + Used(files - {p})
    decreases |files|
  {
    var q :| q in files && Used(files) == |files[q]| + Used(files - {q});
    if p != q {
      UsedBut(files - {q}, p);
      UsedBut(files - {p}, q);
      assert files - {q} - {p} == files - {p} - {q};
    }
  }

  lemma UsedWith(files: Files, p: Path, data: seq<byte>)
    ensures Used(files[p := data]) == Used(files - {p}) + |data|
    ensures Used(files) == Used(files - {p}) + SizeAt(files, p)
  {
    UsedBut(files[p := data], p);
    assert files[p := data] - {p} == files - {p};
    if p in files {
      UsedBut(files, p);
    } else {
      assert files - {p} == files;
    }
  }

  ghost function Capacity(d: Disk): nat {
    Used(d.files) + d.room
  }

  /** Opening, writing, removing and renaming move bytes between the files and the free room. */
  lemma BytesAreConserved(d: Disk, p: Path, data: seq<byte>, to: Path)
    ensures Capacity(Truncated(d, p)) == Capacity(d)
    ensures Capacity(Removed(d, p)) == Capacity(d)
    ensures p in d.files ==> Capacity(Written(d, p, data)) == Capacity(d)
    ensures p in d.files && to !in d.files ==> Capacity(Renamed(d, p, to)) == Capacity(d)
  {
    UsedWith(d.files, p, []);
    if p in d.files {
      UsedWith(d.files, p, d.files[p] + Taken(data, d.room));
      UsedWith(d.files - {p}, to, d.files[p]);
    }
    if p in d.files && to !in d.files {
      assert d.files - {p} - {to} == d.files - {p};
    }
  }

  /** The path an upload is written to before it is renamed. */
  function PartOf(target: Path): Path {
    target.(name := target.name + ".part")
  }

  predicate EndsWithPart(name: string) {
    |name| >= 5 && name[|name| - 5..] == ".part"
  }

  // ---- Decimal printing ----

  function Digit(d: nat): char
    requires d < 10
  {
    '0' + d as char
  }

  function Decimal(n: nat): (s: string)
    ensures |s| > 0
  {
    if n < 10 then [Digit(n)] else Decimal(n / 10) + [Digit(n % 10)]
  }

  function FromDecimal(s: string): int {
    if s == [] then 0 else FromDecimal(s[..|s| - 1]) * 10 + (s[|s| - 1] as int - '0' as int)
  }

  lemma {:induction false} DecimalRoundTrip(n: nat)
    ensures FromDecimal(Decimal(n)) == n
  {
    var s := Decimal(n);
    if n < 10 {
      assert s[..0] == [];
    } else {
      DecimalRoundTrip(n / 10);
      assert s[..|s| - 1] == Decimal(n / 10);
    }
  }

  /** Digits only, and no leading zero. */
  lemma {:induction false} DecimalShape(n: nat)
    ensures forall i | 0 <= i < |Decimal(n)| :: '0' <= Decimal(n)[i] <= '9'
    ensures n > 0 ==> Decimal(n)[0] != '0'
    ensures n < 10 ==> Decimal(n) == ["0123456789"[n]]
  {
    if n >= 10 {
      DecimalShape(n / 10);
      assert Decimal(n) == Decimal(n / 10) + [Digit(n % 10)];
    }
  }

  // ---- Splitting a name at its last dot, as QFileInfo does ----

  function LastDot(name: string): (k: int)
    ensures -1 <= k < |name|
    ensures k >= 0 ==> name[k] == '.'
    ensures forall j :: k < j < |name| ==> name[j] != '.'
  {
    if name == [] then -1
    else if name[|name| - 1] == '.' then |name| - 1
    else LastDot(name[..|name| - 1])
  }

  function CompleteBaseName(name: string): string {
    if LastDot(name) < 0 then name else name[..LastDot(name)]
  }

  function Suffix(name: string): string {
    if LastDot(name) < 0 then "" else name[LastDot(name) + 1..]
  }

  /** The k-th name tried: the target itself, then "base (k).ext", or "base (k)" without a suffix. */
  function Candidate(target: Path, k: nat): Path {
    if k == 0 then target else
    var numbered := CompleteBaseName(target.name) + " (" + Decimal(k) + ")";
    target.(name := if Suffix(target.name) != "" then numbered + "." + Suffix(target.name) else numbered)
  }

  /** The numbered names of "base.ext", where the extension is what follows the last dot. */
  lemma NumberedNames(dir: string, base: string, ext: string, k: nat)
    requires k > 0 && forall i | 0 <= i < |ext| :: ext[i] != '.'
    ensures Candidate(Path(dir, base + "." + ext), k).dir == dir
    ensures ext != "" ==>
      Candidate(Path(dir, base + "." + ext), k).name == base + " (" + Decimal(k) + ")." + ext
    ensures ext == "" ==> Candidate(Path(dir, base + "." + ext), k).name == base + " (" + Decimal(k) + ")"
  {
    var name := base + "." + ext;
    assert name[|base|] == '.';
    assert forall j | |base| < j < |name| :: name[j] == ext[j - |base| - 1];
    assert LastDot(name) == |base|;
    assert CompleteBaseName(name) == base && Suffix(name) == ext;
    var front := base + " (" + Decimal(k);
    assert front + ")" + "." + ext == front + ")." + ext;
  }

  /** And of a name without a dot. */
  lemma NumberedPlainName(dir: string, name: string, k: nat)
    requires k > 0 && forall i | 0 <= i < |name| :: name[i] != '.'
    ensures Candidate(Path(dir, name), k) == Path(dir, name + " (" + Decimal(k) + ")")
  {
    assert LastDot(name) == -1;
  }

  lemma CandidatesDiffer(target: Path, j: nat, k: nat)
    requires j != k
    ensures Candidate(target, j) != Candidate(target, k)
  {
    if Candidate(target, j) == Candidate(target, k) {
      if j > 0 && k > 0 {
        SameNumber(target, j, k);
      } else {
        NumberedIsLonger(target, j + k);
      }
    }
  }

  lemma NumberedIsLonger(target: Path, k: nat)
    requires k > 0
    ensures |Candidate(target, k).name| > |target.name|
  {
  }

  /** What follows the number in a numbered name. */
  function AfterNumber(name: string): string {
    if Suffix(name) != "" then ")" + "." + Suffix(name) else ")"
  }

  lemma NumberedForm(target: Path, k: nat)
    requires k > 0
    ensures Candidate(target, k).name
         == CompleteBaseName(target.name) + " (" + Decimal(k) + AfterNumber(target.name)
  {
    var front, ext := CompleteBaseName(target.name) + " (" + Decimal(k), Suffix(target.name);
    assert front + ")" + "." + ext == front + (")" + "." + ext);
  }

  lemma SameMiddle(front: string, x: string, y: string, back: string)
    requires front + x + back == front + y + back
    ensures x == y
  {
    assert |x| == |y|;
    assert (front + x + back)[|front|..|front| + |x|] == x;
    assert (front + y + back)[|front|..|front| + |y|] == y;
  }

  lemma SameNumber(target: Path, j: nat, k: nat)
    requires j > 0 && k > 0 && Candidate(target, j) == Candidate(target, k)
    ensures j == k
  {
    NumberedForm(target, j);
    NumberedForm(target, k);
    SameMiddle(CompleteBaseName(target.name) + " (", Decimal(j), Decimal(k), AfterNumber(target.name));
    DecimalRoundTrip(j);
    DecimalRoundTrip(k);
  }

  lemma EndsWithPartIsItsSuffix(name: string)
    ensures EndsWithPart(name) <==> Suffix(name) == "part"
  {
    if EndsWithPart(name) {
      var tail := name[|name| - 5..];
      assert forall j :: |name| - 5 <= j < |name| ==> name[j] == tail[j - (|name| - 5)];
      assert name[|name| - 5] == '.';
      assert LastDot(name) == |name| - 5;
      assert name[|name| - 4..] == tail[1..];
    }
    if Suffix(name) == "part" {
      assert name[|name| - 5..] == ['.'] + Suffix(name);
    }
  }

  /** A numbered name keeps the target's suffix, so it is a `.part` name only when the target is one. */
  lemma CandidateIsNoPart(target: Path, k: nat)
    requires !EndsWithPart(target.name)
    ensures !EndsWithPart(Candidate(target, k).name)
  {
    var name, c := target.name, Candidate(target, k).name;
    var ext := Suffix(name);
    if k > 0 {
      if ext == "" {
        assert c[|c| - 1] == ')';
      } else {
        var dot := |c| - 1 - |ext|;
        assert c[dot] == '.' && c[dot + 1..] == ext;
        assert forall j :: dot < j < |c| ==> c[j] == ext[j - dot - 1];
        assert LastDot(c) == dot;
        EndsWithPartIsItsSuffix(c);
        EndsWithPartIsItsSuffix(name);
      }
    }
  }

  lemma PartsOfDistinctTargets(s: Path, t: Path)
    ensures PartOf(s) == PartOf(t) <==> s == t
    ensures PartOf(s).dir == s.dir && PartOf(s).name == s.name + ".part"
    ensures EndsWithPart(PartOf(s).name)
  {
    var a, b := PartOf(s), PartOf(t);
    assert a.name[..|a.name| - 5] == s.name && b.name[..|b.name| - 5] == t.name;
  }

  // ---- When a saved file can land on a `.part` path ----

  /** Some name tried for `a` is the path that an upload to `b` is written to. */
  ghost predicate Clash(a: Path, b: Path) {
    exists k: nat :: Candidate(a, k) == PartOf(b)
  }

  /** No target clashes with itself: behind the base name one path has " (", the other a dot. */
  lemma NoSelfClash(target: Path, k: nat)
    ensures Candidate(target, k) != PartOf(target)
  {
    if k > 0 {
      var at := |CompleteBaseName(target.name)|;
      assert Candidate(target, k).name[at] == ' ';
      assert PartOf(target).name[at] == '.';
    }
  }

  /** A clash can be told from the two names: `a` is the `.part` path of `b`, or `a` is "base.part" and
      `b`, in the same folder, is "base (k)". In particular `a` then ends in `.part`. */
  lemma ClashShape(a: Path, b: Path)
    ensures Clash(a, b) <==> a == PartOf(b) || exists k: nat :: NumberedPart(a, b, k)
  {
    if k: nat :| Candidate(a, k) == PartOf(b) {
      if k > 0 {
        ClashNumber(a, b, k);
      } else {
        assert a == PartOf(b);
      }
    }
    if a == PartOf(b) {
      assert Candidate(a, 0) == PartOf(b);
    }
    if k: nat :| NumberedPart(a, b, k) {
      NumberClashes(a, b, k);
    }
  }

  ghost predicate NumberedPart(a: Path, b: Path, k: nat) {
    && k > 0 && EndsWithPart(a.name) && a.dir == b.dir
    && b.name == CompleteBaseName(a.name) + " (" + Decimal(k) + ")"
  }

  lemma NumberClashes(a: Path, b: Path, k: nat)
    requires NumberedPart(a, b, k)
    ensures Candidate(a, k) == PartOf(b)
  {
    EndsWithPartIsItsSuffix(a.name);
    assert "." + "part" == ".part";
    assert Candidate(a, k).name == b.name + "." + "part" == b.name + ("." + "part");
  }

  lemma ClashNumber(a: Path, b: Path, k: nat)
    requires k > 0 && Candidate(a, k) == PartOf(b)
    ensures NumberedPart(a, b, k)
  {
    PartsOfDistinctTargets(b, b);
    if !EndsWithPart(a.name) {
      CandidateIsNoPart(a, k);
    }
    EndsWithPartIsItsSuffix(a.name);
    var c := Candidate(a, k).name;
    assert c[..|c| - 5] == CompleteBaseName(a.name) + " (" + Decimal(k) + ")";
    assert PartOf(b).name[..|c| - 5] == b.name;
  }

  // ---- The first free name ----

  ghost predicate IsFirstFree(files: Files, target: Path, k: nat) {
    Candidate(target, k) !in files && forall j: nat | j < k :: Candidate(target, j) in files
  }

  function Tried(target: Path, n: nat): (s: set<Path>)
    ensures forall p :: p in s <==> exists j: nat :: j < n && p == Candidate(target, j)
  {
    if n == 0 then {} else
    var s := Tried(target, n - 1) + {Candidate(target, n - 1)};
    assert Candidate(target, n - 1) in s;
    s
  }

  lemma {:induction false} TriedAreDistinct(target: Path, n: nat)
    ensures |Tried(target, n)| == n
  {
    if n > 0 {
      TriedAreDistinct(target, n - 1);
      if Candidate(target, n - 1) in Tried(target, n - 1) {
        var j: nat :| j < n - 1 && Candidate(target, n - 1) == Candidate(target, j);
        CandidatesDiffer(target, n - 1, j);
      }
    }
  }

  /** As many taken names as candidates tried, all different: the pigeonhole behind termination. */
  lemma TakenCandidatesAreBounded(files: Files, target: Path, n: nat)
    requires forall j: nat | j < n :: Candidate(target, j) in files
    ensures n <= |files|
  {
    TriedAreDistinct(target, n);
    assert Tried(target, n) <= files.Keys;
    SubsetIsSmaller(Tried(target, n), files.Keys);
    assert |files.Keys| == |files|;
  }

  /** The collision loop has exactly one outcome. */
  lemma {:induction false} FirstFreeFrom(files: Files, target: Path, from: nat) returns (k: nat)
    requires forall j: nat | j < from :: Candidate(target, j) in files
    ensures from <= k <= |files| && IsFirstFree(files, target, k)
    decreases |files| + 1 - from
  {
    TakenCandidatesAreBounded(files, target, from);
    k := from;
    if Candidate(target, from) in files {
      TakenCandidatesAreBounded(files, target, from + 1);
      k := FirstFreeFrom(files, target, from + 1);
    }
  }

  lemma SubsetIsSmaller<T>(a: set<T>, b: set<T>)
    requires a <= b
    ensures |a| <= |b|
  {
    assert b == a + (b - a);
  }
}
