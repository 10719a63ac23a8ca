/** Error returns. */
module Errors {
  const EPERM := -1
  const EBUSY := -16
  const EINVAL := -22
}
