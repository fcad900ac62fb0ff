/** TiKV's memory settings under a small limit, in MiB. */
module TikvSizing {
  import opened Wrappers

  const MIB: int := 1048576
  const RESERVE: int := 2560 * MIB
  const MIN_MEMORY: int := 4096 * MIB
  const SIZING_THRESHOLD: int := 8192 * MIB
  const RESERVE_SPACE_THRESHOLD: int := 102400 * MIB

  predicate SizesMemory(limit: Option<int>)
  {
    limit.Some? && MIN_MEMORY <= limit.value < SIZING_THRESHOLD
  }

  predicate SizesDisk(volume: int)
  {
    volume != 0 && volume < RESERVE_SPACE_THRESHOLD
  }

  /** What the caches are sized from, in MiB. */
  function Remainder(limit: int): nat
    requires limit >= MIN_MEMORY
  {
    (limit - RESERVE) / MIB
  }

  function BlockCache(limit: int): nat
    requires limit >= MIN_MEMORY
  {
    Remainder(limit) * 45 / 100
  }

  function WriteBuffers(limit: int): nat
    requires limit >= MIN_MEMORY
  {
    Remainder(limit) * 15 / 100
  }

  function UsageLimit(limit: int): nat
    requires limit >= MIN_MEMORY
  {
    RESERVE / MIB + Remainder(limit) * 75 / 100
  }

  /** What the provider sets: nothing unless there is a small limit. */
  datatype Sizes = Sizes(blockCache: nat, writeBuffers: nat, usageLimit: nat)

  function SizesFor(limit: Option<int>): Option<Sizes>
  {
    if SizesMemory(limit)
    then Some(Sizes(BlockCache(limit.value), WriteBuffers(limit.value), UsageLimit(limit.value)))
    else None
  }

  /** The caches fit in the usage limit beside the reserve, and the usage limit
      leaves at least 384 MiB of the memory limit. */
  lemma SizesFit(limit: int)
    requires SizesMemory(Some(limit))
    ensures var s := SizesFor(Some(limit)).value;
      && 2560 + s.blockCache + s.writeBuffers <= s.usageLimit
      && s.usageLimit * MIB + 384 * MIB <= limit
      && s.blockCache >= 691 && s.writeBuffers >= 230
  {
    var r := Remainder(limit);
    assert r * MIB <= limit - RESERVE && r >= 1536;
  }

  lemma SizesGrow(small: int, large: int)
    requires MIN_MEMORY <= small <= large
    ensures BlockCache(small) <= BlockCache(large)
    ensures WriteBuffers(small) <= WriteBuffers(large)
    ensures UsageLimit(small) <= UsageLimit(large)
  {
    assert Remainder(small) <= Remainder(large);
  }
}
