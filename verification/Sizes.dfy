/** The sizes that the scheduler and the shaders agree on. */
module Sizes {
  // Bytes of each ring; no job is longer.
  const RING_SIZE: nat := 1024 * 1024 * 64
  const PARAM_BUFFER_WORDS: nat := 1024
  // Invocations of a group.
  const GROUP_SIZE: nat := 256
}
