/**
 * The size text of a file, shared by the writing section's `formatSize` and the local
 * store's `formatFileSize`, which choose their unit by the same thresholds.
 */
module FileSize {
  import opened Text

  const KiB: nat := 1024
  const MiB: nat := 1024 * 1024

  /**
   * The sizes below 1024 print as the integer and " B"; the others keep the byte count
   * and the unit they are scaled to.
   */
  datatype SizeText = InBytes(text: string) | InKB(bytes: nat) | InMB(bytes: nat)

  function FormatSize(bytes: nat): (r: SizeText)
    ensures r.InBytes? <==> bytes < KiB
    ensures r.InKB? <==> KiB <= bytes < MiB
    ensures r.InMB? <==> MiB <= bytes
    ensures r.InBytes? ==> r.text == NatToString(bytes) + " B"
    ensures r.InKB? || r.InMB? ==> r.bytes == bytes
  {
    if bytes < KiB then InBytes(NatToString(bytes) + " B")
    else if bytes < MiB then InKB(bytes)
    else InMB(bytes)
  }

  /** The rank of a size's unit: 0 for B, 1 for KB, 2 for MB. */
  function UnitRank(t: SizeText): nat {
    match t
    case InBytes(_) => 0
    case InKB(_) => 1
    case InMB(_) => 2
  }

  /** A larger file never prints in a smaller unit. */
  lemma UnitMonotone(a: nat, b: nat)
    requires a <= b
    ensures UnitRank(FormatSize(a)) <= UnitRank(FormatSize(b))
  {
  }
}
