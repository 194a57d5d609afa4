/** Byte-signature search over the main module's image. */
module PatternScanner {
  import opened Wrappers

  type Byte = b: nat | b < 256

  /** `mask[i] == 'x'` means byte i must match; any other mask character is a wildcard. */
  datatype Signature = Signature(pattern: seq<Byte>, mask: string)

  /** The mapped image and its load address; addresses fit in 32 bits. */
  datatype Image = Image(base: nat, bytes: seq<Byte>)

  predicate WellFormed(sig: Signature) { |sig.mask| <= |sig.pattern| }

  predicate Addressable(m: Option<Image>) {
    m.Some? ==> 0 < m.value.base && m.value.base + |m.value.bytes| <= 0x1_0000_0000
  }

  predicate Matches(bytes: seq<Byte>, at: nat, sig: Signature)
    requires WellFormed(sig)
  {
    && at + |sig.mask| <= |bytes|
    && forall i | 0 <= i < |sig.mask| :: sig.mask[i] == 'x' ==> bytes[at + i] == sig.pattern[i]
  }

  /** Where the scan ends up: the lowest matching offset from `at`, if any. */
  function ScanFrom(bytes: seq<Byte>, sig: Signature, at: nat): Option<nat>
    requires WellFormed(sig)
    decreases |bytes| - at
  {
    if at + |sig.mask| > |bytes| || at >= |bytes| then None
    else if Matches(bytes, at, sig) then Some(at)
    else ScanFrom(bytes, sig, at + 1)
  }

  /** The scanner's answer: an absolute address, or 0. */
  function Scan(m: Option<Image>, sig: Signature): nat
    requires WellFormed(sig)
  {
    if m.None? || sig.mask == "" then 0
    else match ScanFrom(m.value.bytes, sig, 0)
         case None => 0
         case Some(at) => m.value.base + at
  }

  method MatchAt(bytes: seq<Byte>, at: nat, sig: Signature) returns (ok: bool)
    requires WellFormed(sig) && at + |sig.mask| <= |bytes|
    ensures ok <==> Matches(bytes, at, sig)
  {
    for i := 0 to |sig.mask|
      invariant forall j | 0 <= j < i :: sig.mask[j] == 'x' ==> bytes[at + j] == sig.pattern[j]
    {
      if sig.mask[i] == 'x' && bytes[at + i] != sig.pattern[i] { return false; }
    }
    return true;
  }

  method FindInMainModule(m: Option<Image>, sig: Signature) returns (addr: nat)
    requires WellFormed(sig)
    ensures addr == Scan(m, sig)
  {
    if m.None? { return 0; }
    var bytes := m.value.bytes;
    if |sig.mask| == 0 || |bytes| < |sig.mask| { return 0; }
    var last := |bytes| - |sig.mask|;
    var p := 0;
    while p <= last
      invariant 0 <= p <= last + 1
      invariant ScanFrom(bytes, sig, 0) == ScanFrom(bytes, sig, p)
    {
      var ok := MatchAt(bytes, p, sig);
      if ok { return m.value.base + p; }
      p := p + 1;
    }
    return 0;
  }

  lemma {:induction false} ScanFromMeaning(bytes: seq<Byte>, sig: Signature, at: nat)
    requires WellFormed(sig) && sig.mask != ""
    ensures match ScanFrom(bytes, sig, at)
            case None => forall k: nat | at <= k :: !Matches(bytes, k, sig)
            case Some(p) => at <= p && Matches(bytes, p, sig) &&
                            forall k: nat | at <= k < p :: !Matches(bytes, k, sig)
    decreases |bytes| - at
  {
    if at + |sig.mask| <= |bytes| && !Matches(bytes, at, sig) {
      ScanFromMeaning(bytes, sig, at + 1);
    }
  }

  /** The least matching address, or 0 exactly when nothing matches. */
  lemma ScanIsLeastMatch(m: Option<Image>, sig: Signature)
    requires WellFormed(sig) && sig.mask != "" && Addressable(m) && m.Some?
    ensures var bytes, base, addr := m.value.bytes, m.value.base, Scan(m, sig);
            && (addr == 0 <==> forall k: nat :: !Matches(bytes, k, sig))
            && (addr != 0 ==> base <= addr < 0x1_0000_0000 && Matches(bytes, addr - base, sig))
            && (addr != 0 ==> forall k: nat | k < addr - base :: !Matches(bytes, k, sig))
  {
    ScanFromMeaning(m.value.bytes, sig, 0);
  }

  lemma ScanFits(m: Option<Image>, sig: Signature)
    requires WellFormed(sig) && Addressable(m)
    ensures Scan(m, sig) < 0x1_0000_0000
  {
    if m.Some? && sig.mask != "" { ScanIsLeastMatch(m, sig); }
  }
}
