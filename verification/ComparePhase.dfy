/** Comparing a local file with the remote one by size and time, and by hash where those do not decide. */
module ComparePhase {
  const MAX_I64: int := 0x7FFF_FFFF_FFFF_FFFF
  const MIN_I64: int := -0x8000_0000_0000_0000
  type i64 = x: int | MIN_I64 <= x <= MAX_I64

  /** Raw times above the threshold are Unix nanoseconds; Windows ticks count 100 ns from 1601. */
  const UNIX_NS_THRESHOLD: int := 500_000_000_000_000_000
  const WINDOWS_EPOCH: int := 116_444_736_000_000_000
  const TOLERANCE_NS: int := 2_000_000

  datatype Option<T> = None | Some(value: T)
  datatype FileEntry = FileEntry(path: string, size: nat, mtime: i64)
  datatype Mode = Fast | Strict | SizeOnly
  datatype Category = Same | Diff | Missing | Extra
  datatype Outcome = Outcome(category: Category, needHash: bool)

  // ----- Times -----

  /** The time as Unix nanoseconds, if the raw value makes sense. */
  function NormalizeMtime(raw: i64): (r: Option<i64>)
    ensures r.Some? ==> 0 <= r.value
  {
    if raw > UNIX_NS_THRESHOLD then Some(raw)
    else if raw < WINDOWS_EPOCH then None
    else
      var ticks := raw - WINDOWS_EPOCH;
      if ticks > MAX_I64 / 100 then None else Some(ticks * 100)
  }

  function Distance(a: int, b: int): nat {
    if a < b then b - a else a - b
  }

  predicate MtimeWithinTolerance(local: i64, remote: i64) {
    match (NormalizeMtime(local), NormalizeMtime(remote))
    case (Some(l), Some(r)) => Distance(l, r) <= TOLERANCE_NS
    case _ => Distance(local, remote) <= TOLERANCE_NS
  }

  /** A Unix time as Windows ticks. */
  function AsTicks(unixNs: int): int {
    unixNs / 100 + WINDOWS_EPOCH
  }

  /** Writing one instant as Unix nanoseconds or as Windows ticks makes no difference to the comparison,
      in either direction and on either side. */
  lemma RepresentationsAgree(a: i64, b: i64)
    requires a > UNIX_NS_THRESHOLD && b > UNIX_NS_THRESHOLD
    ensures MIN_I64 <= AsTicks(a) <= MAX_I64 && NormalizeMtime(AsTicks(a)) == Some(a - a % 100)
    ensures MtimeWithinTolerance(AsTicks(a), a) && MtimeWithinTolerance(a, AsTicks(a))
    ensures Distance(a, b) + 100 <= TOLERANCE_NS ==> MtimeWithinTolerance(AsTicks(a), b)
    ensures MtimeWithinTolerance(AsTicks(a), b) ==> Distance(a, b) <= TOLERANCE_NS + 100
  {
    assert a / 100 * 100 == a - a % 100;
  }

  lemma ToleranceIsSymmetric(a: i64, b: i64)
    ensures MtimeWithinTolerance(a, b) == MtimeWithinTolerance(b, a)
  {
  }

  // ----- The decision -----

  function DecideCompare(mode: Mode, local: Option<FileEntry>, remote: FileEntry): Outcome {
    match local
    case None => Outcome(Missing, false)
    case Some(l) =>
      if l.size != remote.size then Outcome(Diff, false)
      else match mode
           case SizeOnly => Outcome(Same, false)
           case Strict => Outcome(Same, true)
           case Fast => if MtimeWithinTolerance(l.mtime, remote.mtime) then Outcome(Same, false)
             else Outcome(Same, true)
  }

  /** Times read as Unix nanoseconds are those above 5 * 10^17, and times read as Windows ticks of 100 ns those of
      the 292 years from 1970 on; no others make sense. */
  predicate UnixTime(raw: int) {
    raw > 500_000_000_000_000_000
  }

  predicate TickTime(raw: int) {
    116_444_736_000_000_000 <= raw <= 116_444_736_000_000_000 + 0x7FFF_FFFF_FFFF_FFFF / 100
  }

  /** At most two milliseconds apart: compared as instants if both make sense, and as raw numbers if not. */
  predicate TimesAgree(a: int, b: int) {
    if UnixTime(a) && UnixTime(b) then -2_000_000 <= a - b <= 2_000_000
    else if TickTime(a) && TickTime(b) then -20_000 <= a - b <= 20_000
    else if UnixTime(a) && TickTime(b) then -2_000_000 <= a - (b - 116_444_736_000_000_000) * 100 <= 2_000_000
    else if TickTime(a) && UnixTime(b) then -2_000_000 <= (a - 116_444_736_000_000_000) * 100 - b <= 2_000_000
    else -2_000_000 <= a - b <= 2_000_000
  }

  /** In Fast mode files of one size are the same without a hash if and only if their times agree; otherwise
      the hash decides. */
  lemma FastDecision(local: FileEntry, remote: FileEntry)
    requires local.size == remote.size
    ensures var o := DecideCompare(Fast, Some(local), remote);
            o.category.Same? && (!o.needHash <==> TimesAgree(local.mtime, remote.mtime))
  {
  }

  function ClassifyByHash<H(==)>(localReadable: bool, local: H, remote: H): Category {
    if localReadable && local == remote then Same else Diff
  }

  /** Metadata first, the hash only where it is needed. */
  function Verdict<H(==)>(mode: Mode, local: Option<FileEntry>, remote: FileEntry, readable: bool, mine: H,
                          theirs: H): Category
  {
    var o := DecideCompare(mode, local, remote);
    if o.needHash then ClassifyByHash(readable, mine, theirs) else o.category
  }

  /** What the three verdicts mean, in every mode. */
  lemma VerdictMeaning<H>(mode: Mode, local: Option<FileEntry>, remote: FileEntry, readable: bool, mine: H, theirs: H)
    ensures var v := Verdict(mode, local, remote, readable, mine, theirs);
            && (v.Missing? <==> local.None?)
            && (v.Same? <==> local.Some? && local.value.size == remote.size
                             && (mode.SizeOnly? || (mode.Fast? && TimesAgree(local.value.mtime, remote.mtime))
                                 || (readable && mine == theirs)))
            && !v.Extra?
  {
  }

  /** A stricter mode never calls files the same that a laxer one tells apart. */
  lemma StricterIsFiner<H>(local: Option<FileEntry>, remote: FileEntry, readable: bool, mine: H, theirs: H)
    ensures Verdict(Strict, local, remote, readable, mine, theirs).Same? ==>
            Verdict(Fast, local, remote, readable, mine, theirs).Same?
    ensures Verdict(Fast, local, remote, readable, mine, theirs).Same? ==>
            Verdict(SizeOnly, local, remote, readable, mine, theirs).Same?
  {
  }
}
