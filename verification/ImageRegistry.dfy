/**
 * The registry of emulated images: which addresses an engine may execute, which jump targets
 * count as native, and the no-execute protection that makes native calls into images fault.
 */
module ImageRegistry {
  import opened Words

  const EFI_PAGE_SIZE := 4096

  /** ImageRecord as far as lookups and protections go. */
  datatype Image = Image(base: Word, size: Word, entry: Word, cpu: Cpu) {
    predicate Covers(a: Word) { base <= a && a < (base + size) % TWO64 }
  }

  function Range(i: Image): set<Word> { set a: Word | 0 <= a < TWO64 && i.Covers(a) }

  /** images: mImageList; executable: uc_mem_protect per engine; noExecute: EFI_MEMORY_XP on the host. */
  datatype State = State(images: seq<Image>, executable: PerCpu<set<Word>>, noExecute: set<Word>)

  /** The first image that covers the address, or the number of images. */
  function IndexOf(images: seq<Image>, a: Word): (k: nat)
    ensures k <= |images| && (k < |images| ==> images[k].Covers(a))
    ensures forall j :: 0 <= j < k ==> !images[j].Covers(a)
  {
    if images == [] then 0 else if images[0].Covers(a) then 0 else 1 + IndexOf(images[1..], a)
  }

  /** EmulatorIsNativeCall; alignment is the host's NATIVE_INSN_ALIGNMENT. */
  predicate IsNativeCall(images: seq<Image>, pc: Word, alignment: nat)
    requires alignment > 0
  {
    pc % alignment == 0 && (pc < EFI_PAGE_SIZE || IndexOf(images, pc) == |images|)
  }

  /** ImageProtocolRegister after parsing; a failing SetMemoryAttributes leaves the record in place. */
  function Register(s: State, i: Image, attributesOk: bool): (State, bool) {
    (State(s.images + [i], s.executable.Set(i.cpu, s.executable.Get(i.cpu) + Range(i)),
           if attributesOk then s.noExecute + Range(i) else s.noExecute), attributesOk)
  }

  /** ImageProtocolUnregister, by any address inside the image. */
  function Unregister(s: State, a: Word): (State, bool) {
    var k := IndexOf(s.images, a);
    if k == |s.images| then (s, false)
    else
      var i := s.images[k];
      (State(Without(s.images, k), s.executable.Set(i.cpu, s.executable.Get(i.cpu) - Range(i)),
             s.noExecute - Range(i)), true)
  }

  class Registry {
    var images: seq<Image>
    var executable: PerCpu<set<Word>>
    var noExecute: set<Word>

    ghost function View(): State
      reads this
    {
      State(images, executable, noExecute)
    }

    constructor ()
      ensures View() == State([], PerCpu({}, {}), {})
    {
      images, executable, noExecute := [], PerCpu({}, {}), {};
    }

    /** ImageFindByAddress. */
    method FindByAddress(a: Word) returns (k: nat)
      ensures k == IndexOf(images, a)
    {
      k := 0;
      while k < |images| && !images[k].Covers(a)
        invariant k <= |images| && forall j :: 0 <= j < k ==> !images[j].Covers(a)
      {
        k := k + 1;
      }
    }

    /** EmulatorIsNativeCall. */
    method IsNative(pc: Word, alignment: nat) returns (native: bool)
      requires alignment > 0
      ensures native == IsNativeCall(images, pc, alignment)
    {
      if pc % alignment != 0 {
        return false;
      }
      if pc < EFI_PAGE_SIZE {
        return true;
      }
      var k := FindByAddress(pc);
      return k == |images|;
    }

    method RegisterImage(i: Image, attributesOk: bool) returns (ok: bool)
      modifies this
      ensures (View(), ok) == Register(old(View()), i, attributesOk)
    {
      executable := executable.Set(i.cpu, executable.Get(i.cpu) + Range(i));
      images := images + [i];
      if !attributesOk {
        return false;
      }
      noExecute := noExecute + Range(i);
      return true;
    }

    method UnregisterImage(a: Word) returns (ok: bool)
      modifies this
      ensures (View(), ok) == Unregister(old(View()), a)
    {
      var k := FindByAddress(a);
      if k == |images| {
        return false;
      }
      var i := images[k];
      executable := executable.Set(i.cpu, executable.Get(i.cpu) - Range(i));
      noExecute := noExecute - Range(i);
      images := images[..k] + images[k + 1..];
      return true;
    }
  }

  // ----- agreement -----

  /** Some registered image of CPU c covers the address. */
  ghost predicate InImageOf(images: seq<Image>, c: Cpu, a: Word) {
    exists k :: 0 <= k < |images| && images[k].cpu == c && images[k].Covers(a)
  }

  ghost predicate InImage(images: seq<Image>, a: Word) { InImageOf(images, X64, a) || InImageOf(images, AArch64, a) }

  /** At address a at most one image covers. */
  ghost predicate AtMostOne(images: seq<Image>, a: Word) {
    forall i, j :: 0 <= i < j < |images| ==> !(images[i].Covers(a) && images[j].Covers(a))
  }

  ghost predicate Disjoint(images: seq<Image>) { forall a: Word :: AtMostOne(images, a) }

  /** Protection and registry agree at one address. */
  ghost predicate AgreesAt(s: State, a: Word) {
    && (forall c :: a in s.executable.Get(c) <==> InImageOf(s.images, c, a))
    && (a in s.noExecute <==> InImage(s.images, a))
  }

  /**
   * An address is executable on an engine exactly when it lies in a registered image of that CPU,
   * and not executable on the host exactly when it lies in any.
   */
  ghost predicate Agreement(s: State) { forall a: Word :: AgreesAt(s, a) }

  /** What a caller of register promises: the image is not empty, above page 0, does not wrap, does not overlap. */
  ghost predicate Loadable(images: seq<Image>, i: Image) {
    && i.base >= EFI_PAGE_SIZE && i.size > 0 && i.base + i.size < TWO64
    && forall a: Word :: i.Covers(a) ==> !InImage(images, a)
  }

  lemma InPushed(images: seq<Image>, i: Image, c: Cpu, a: Word)
    ensures InImageOf(images + [i], c, a) <==> InImageOf(images, c, a) || (i.cpu == c && i.Covers(a))
  {
    var all := images + [i];
    if k :| 0 <= k < |images| && images[k].cpu == c && images[k].Covers(a) {
      assert all[k] == images[k];
    }
    assert all[|images|] == i;
  }

  lemma CoveredIn(images: seq<Image>, k: nat, a: Word)
    requires k < |images| && images[k].Covers(a)
    ensures InImage(images, a)
  {
    assert images[k].cpu == X64 || images[k].cpu == AArch64;
  }

  lemma RegisterAgreesAt(s: State, i: Image, a: Word)
    requires AgreesAt(s, a) && AtMostOne(s.images, a) && (i.Covers(a) ==> !InImage(s.images, a))
    ensures AgreesAt(Register(s, i, true).0, a) && AtMostOne(Register(s, i, true).0.images, a)
  {
    var s' := Register(s, i, true).0;
    forall c ensures a in s'.executable.Get(c) <==> InImageOf(s'.images, c, a) { InPushed(s.images, i, c, a); }
    InPushed(s.images, i, X64, a);
    InPushed(s.images, i, AArch64, a);
    forall m, n | 0 <= m < n < |s'.images| ensures !(s'.images[m].Covers(a) && s'.images[n].Covers(a)) {
      if n == |s.images| && s.images[m].Covers(a) {
        CoveredIn(s.images, m, a);
      }
    }
  }

  lemma RegisterAgrees(s: State, i: Image)
    requires Agreement(s) && Disjoint(s.images) && Loadable(s.images, i)
    ensures Agreement(Register(s, i, true).0) && Disjoint(Register(s, i, true).0.images)
  {
    forall a: Word ensures AgreesAt(Register(s, i, true).0, a) && AtMostOne(Register(s, i, true).0.images, a) {
      assert AgreesAt(s, a) && AtMostOne(s.images, a);
      RegisterAgreesAt(s, i, a);
    }
  }

  function Without(images: seq<Image>, k: nat): seq<Image>
    requires k < |images|
  {
    images[..k] + images[k + 1..]
  }

  /** Where image k does not cover, removing it changes nothing; where only it covers, nothing is left. */
  lemma InWithout(images: seq<Image>, k: nat, c: Cpu, a: Word)
    requires k < |images|
    ensures !images[k].Covers(a) ==> (InImageOf(Without(images, k), c, a) <==> InImageOf(images, c, a))
    ensures images[k].Covers(a) && AtMostOne(images, a) ==> !InImageOf(Without(images, k), c, a)
  {
    var rest := Without(images, k);
    if m :| 0 <= m < |rest| && rest[m].cpu == c && rest[m].Covers(a) {
      var n := if m < k then m else m + 1;
      assert rest[m] == images[n];
    }
    if n :| 0 <= n < |images| && n != k && images[n].cpu == c && images[n].Covers(a) {
      var m := if n < k then n else n - 1;
      assert rest[m] == images[n];
    }
  }

  lemma WithoutAtMostOne(images: seq<Image>, k: nat, a: Word)
    requires k < |images| && AtMostOne(images, a)
    ensures AtMostOne(Without(images, k), a)
  {
    var rest := Without(images, k);
    forall i, j | 0 <= i < j < |rest| ensures !(rest[i].Covers(a) && rest[j].Covers(a)) {
      var m, n := if i < k then i else i + 1, if j < k then j else j + 1;
      assert rest[i] == images[m] && rest[j] == images[n];
    }
  }

  lemma UnregisterAgreesAt(s: State, address: Word, a: Word)
    requires AgreesAt(s, a) && AtMostOne(s.images, a)
    ensures AgreesAt(Unregister(s, address).0, a) && AtMostOne(Unregister(s, address).0.images, a)
  {
    var k := IndexOf(s.images, address);
    if k < |s.images| {
      var s' := Unregister(s, address).0;
      WithoutAtMostOne(s.images, k, a);
      forall c ensures a in s'.executable.Get(c) <==> InImageOf(s'.images, c, a) {
        InWithout(s.images, k, c, a);
        if s.images[k].Covers(a) {
          OnlyOneCpu(s.images, k, c, a);
        }
      }
      InWithout(s.images, k, X64, a);
      InWithout(s.images, k, AArch64, a);
    }
  }

  lemma OnlyOneCpu(images: seq<Image>, k: nat, c: Cpu, a: Word)
    requires k < |images| && AtMostOne(images, a) && images[k].Covers(a)
    ensures InImageOf(images, c, a) <==> c == images[k].cpu
  {
  }

  lemma UnregisterAgrees(s: State, address: Word)
    requires Agreement(s) && Disjoint(s.images)
    ensures Agreement(Unregister(s, address).0) && Disjoint(Unregister(s, address).0.images)
  {
    forall a: Word ensures AgreesAt(Unregister(s, address).0, a) && AtMostOne(Unregister(s, address).0.images, a) {
      assert AgreesAt(s, a) && AtMostOne(s.images, a);
      UnregisterAgreesAt(s, address, a);
    }
  }

  datatype Op = Load(image: Image, attributesOk: bool) | Unload(address: Word)

  function Apply(s: State, op: Op): State {
    match op
    case Load(i, ok) => Register(s, i, ok).0
    case Unload(a) => Unregister(s, a).0
  }

  function Run(s: State, ops: seq<Op>): State
    decreases |ops|
  {
    if ops == [] then s else Run(Apply(s, ops[0]), ops[1..])
  }

  /** Every image registered along the way is loadable at that moment and its protection succeeds. */
  ghost predicate Legal(s: State, ops: seq<Op>)
    decreases |ops|
  {
    ops != [] ==>
      && (ops[0].Load? ==> Loadable(s.images, ops[0].image) && ops[0].attributesOk)
      && Legal(Apply(s, ops[0]), ops[1..])
  }

  /** Over any sequence of registrations and removals, protections and registry agree. */
  lemma {:induction false} RunAgrees(s: State, ops: seq<Op>)
    requires Agreement(s) && Disjoint(s.images) && Legal(s, ops)
    ensures Agreement(Run(s, ops)) && Disjoint(Run(s, ops).images)
    decreases |ops|
  {
    if ops != [] {
      match ops[0] {
        case Load(i, _) => RegisterAgrees(s, i);
        case Unload(a) => UnregisterAgrees(s, a);
      }
      RunAgrees(Apply(s, ops[0]), ops[1..]);
    }
  }

  lemma InImageIff(images: seq<Image>, a: Word)
    ensures InImage(images, a) <==> IndexOf(images, a) < |images|
  {
    var k := IndexOf(images, a);
    if k < |images| {
      CoveredIn(images, k, a);
    }
  }

  /** An executable address is never classed as native, and exactly the protected ones are found. */
  lemma ExecutableIsNotNative(s: State, ops: seq<Op>, c: Cpu, a: Word, alignment: nat)
    requires Agreement(s) && Disjoint(s.images) && Legal(s, ops) && alignment > 0 && a >= EFI_PAGE_SIZE
    ensures a in Run(s, ops).executable.Get(c) ==> !IsNativeCall(Run(s, ops).images, a, alignment)
    ensures a in Run(s, ops).noExecute <==> IndexOf(Run(s, ops).images, a) < |Run(s, ops).images|
  {
    RunAgrees(s, ops);
    assert AgreesAt(Run(s, ops), a);
    InImageIff(Run(s, ops).images, a);
    assert c == X64 || c == AArch64;
  }

  /**
   * Which jumps leave emulation, after any legal sequence: above page 0 exactly the aligned ones that
   * hit no registered image of either CPU, which are the aligned ones the host may execute; in page 0
   * all aligned ones.
   */
  lemma NativeIff(s: State, ops: seq<Op>, a: Word, alignment: nat)
    requires Agreement(s) && Disjoint(s.images) && Legal(s, ops) && alignment > 0
    ensures var s' := Run(s, ops);
            && (a >= EFI_PAGE_SIZE ==>
                  (IsNativeCall(s'.images, a, alignment) <==>
                   a % alignment == 0 && forall i <- s'.images :: !(i.base <= a && a < (i.base + i.size) % TWO64)))
            && (a >= EFI_PAGE_SIZE ==> (IsNativeCall(s'.images, a, alignment) <==> a % alignment == 0 && a !in s'.noExecute))
            && (a < EFI_PAGE_SIZE ==> (IsNativeCall(s'.images, a, alignment) <==> a % alignment == 0))
  {
    RunAgrees(s, ops);
    var images := Run(s, ops).images;
    assert AgreesAt(Run(s, ops), a);
    InImageIff(images, a);
    var k := IndexOf(images, a);
    if k < |images| {
      assert images[k] in images && images[k].Covers(a);
    }
  }

  /** Unregister succeeds exactly when some image covers the address, and otherwise changes nothing. */
  lemma UnregisterFindsIff(s: State, a: Word)
    ensures Unregister(s, a).1 <==> InImage(s.images, a)
    ensures InImage(s.images, a) ==> |Unregister(s, a).0.images| == |s.images| - 1
    ensures !InImage(s.images, a) ==> Unregister(s, a).0 == s
  {
    InImageIff(s.images, a);
  }

  /** An image that does not wrap covers its base + size bytes and nothing else; one that wraps, nothing. */
  lemma CoversItsBytes(i: Image)
    ensures i.base + i.size < TWO64 ==> |Range(i)| == i.size && forall a: Word :: i.Covers(a) <==> i.base <= a < i.base + i.size
    ensures i.base + i.size >= TWO64 ==> Range(i) == {}
  {
    if i.base + i.size < TWO64 {
      assert Range(i) == set a: Word | Within(i.base, i.size, a);
      Interval(i.base, i.size);
    } else {
      assert (i.base + i.size) % TWO64 == i.base + i.size - TWO64;
    }
  }

  predicate Within(base: nat, size: nat, a: Word) { base <= a < base + size }

  lemma {:induction false} Interval(base: nat, size: nat)
    requires base + size < TWO64
    ensures |set a: Word | Within(base, size, a)| == size
  {
    if size > 0 {
      Interval(base, size - 1);
      var shorter := size - 1;
      assert (set a: Word | Within(base, size, a)) == (set a: Word | Within(base, shorter, a)) + {base + shorter};
    }
  }

  lemma NewlyCovered(s: State, i: Image, x: Word)
    requires Agreement(s) && Loadable(s.images, i) && i.Covers(x)
    ensures x !in s.executable.Get(i.cpu) && x !in s.noExecute
  {
    assert AgreesAt(s, x);
    assert i.cpu == X64 || i.cpu == AArch64;
  }

  lemma IndexOfPushed(images: seq<Image>, i: Image, a: Word)
    requires IndexOf(images, a) == |images| && i.Covers(a)
    ensures IndexOf(images + [i], a) == |images|
  {
    var all := images + [i];
    forall j | 0 <= j < |images| ensures !all[j].Covers(a) {
      assert all[j] == images[j];
    }
    assert all[|images|] == i;
  }

  /** Register followed by unregister restores the list, every lookup and every protection. */
  lemma UnregisterUndoesRegister(s: State, i: Image, a: Word)
    requires Agreement(s) && Loadable(s.images, i) && i.Covers(a)
    ensures Unregister(Register(s, i, true).0, a) == (s, true)
  {
    var n := |s.images|;
    InImageIff(s.images, a);
    IndexOfPushed(s.images, i, a);
    assert Without(s.images + [i], n) == s.images;
    forall x: Word | x in Range(i) ensures x !in s.executable.Get(i.cpu) && x !in s.noExecute {
      NewlyCovered(s, i, x);
    }
    assert s.executable.Get(i.cpu) + Range(i) - Range(i) == s.executable.Get(i.cpu);
    assert s.noExecute + Range(i) - Range(i) == s.noExecute;
  }

  /**
   * Register is all or nothing, success or no change, exactly when the attributes can be set. If
   * they cannot, it reports failure and the image stays registered and executable.
   */
  lemma RegisterAllOrNothingIff(s: State, i: Image, attributesOk: bool)
    ensures var (s', ok) := Register(s, i, attributesOk); (ok || s' == s) <==> attributesOk
    ensures !attributesOk ==>
              var (s', ok) := Register(s, i, attributesOk);
              !ok && s'.images == s.images + [i] && Range(i) <= s'.executable.Get(i.cpu) && s'.noExecute == s.noExecute
  {
    assert |s.images + [i]| == |s.images| + 1;
  }

  /**
   * With overlapping images removal can go too far. At each address of image k, after its removal
   * the engine agrees with the registry exactly when no other image of its CPU covers the address.
   */
  lemma RemovalAgreesIff(s: State, k: nat, a: Word)
    requires k < |s.images| && s.images[k].Covers(a)
    ensures var i := s.images[k];
            (a in s.executable.Get(i.cpu) - Range(i) <==> InImageOf(Without(s.images, k), i.cpu, a)) <==>
            (forall n :: 0 <= n < |s.images| && n != k && s.images[n].cpu == i.cpu ==> !s.images[n].Covers(a))
  {
    var rest, c := Without(s.images, k), s.images[k].cpu;
    if m :| 0 <= m < |rest| && rest[m].cpu == c && rest[m].Covers(a) {
      assert rest[m] == s.images[if m < k then m else m + 1];
    }
    if n :| 0 <= n < |s.images| && n != k && s.images[n].cpu == c && s.images[n].Covers(a) {
      assert rest[if n < k then n else n - 1] == s.images[n];
    }
  }

  /** The input that shows it: an image registered twice and removed once is no longer executable. */
  lemma OverlapLosesProtection(i: Image, a: Word)
    requires i.Covers(a)
    ensures var s := Unregister(State([i, i], PerCpu({}, {}).Set(i.cpu, Range(i)), Range(i)), a).0;
            s.images == [i] && a !in s.executable.Get(i.cpu)
  {
    assert IndexOf([i, i], a) == 0;
    assert Without([i, i], 0) == [i];
  }
}
