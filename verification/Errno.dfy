/** The error codes of Linux that the models name. */
module Errno {
  const EINTR := 4
  const EIO := 5
  const ENOSYS := 38
  const ENODATA := 61
  const EPROTO := 71
  const ECONNABORTED := 103
  const ENOTCONN := 107
  const ETIMEDOUT := 110
}
