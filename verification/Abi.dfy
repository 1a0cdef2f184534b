/** Constants and layouts shared by the kernel programs and the daemon (ebpf/include/abi.h). */
module Abi {
  import opened Bytes

  const PAYLOAD_MAX := 1200
  const VARIANTS := 32
  const RULES_MAX := 3
  const PLAN_UDP := 3
  const PLANS := 4
  const SPAN := 128
  const NS := 1_000_000_000

  datatype RawTemplate = RawTemplate(len: nat, data: seq<byte>)

  /** Templates are rendered into zeroed memory. */
  type Template = t: RawTemplate |
      && t.len < U32 && |t.data| == PAYLOAD_MAX
      && (t.len <= PAYLOAD_MAX ==> t.data[t.len..] == Zeros(PAYLOAD_MAX - t.len))
    witness RawTemplate(0, Zeros(PAYLOAD_MAX))

  /** The template map key in 32-bit arithmetic. */
  function TemplateKey(gen: u32, plan: nat, variant: nat): u32 {
    ((gen * PLANS + plan) * VARIANTS + variant) % U32
  }

  /** How the observer packs the pick into a request, and how the builder takes it apart. */
  function Pick(plan: u32, variant: u32): u32
    requires variant < VARIANTS
  {
    plan % PLANS * VARIANTS + variant
  }

  function PickedPlan(pick: u32): nat { pick / VARIANTS % PLANS }

  function PickedVariant(pick: u32): nat { pick % VARIANTS }
}
