/** Capacities of the kernel's fixed-size containers. */
module KernelConfig {
  const MAX_INODES: nat := 1024
  const MAX_TASKS: nat := 256
  const MAX_READY: nat := 128
  const MAX_SLEEPING: nat := 128
  const MAX_BLOCKED_GROUPS: nat := 64
  const MAX_BLOCKED_PER_GROUP: nat := 32
}
