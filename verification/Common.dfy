// Result types and error numbers shared by the components.
module Common {

  datatype Option<+T> = None | Some(value: T)

  // A value, or the errno the C code returns negated.
  datatype Result<+T> = Ok(value: T) | Err(errno: int)

  const EINTR := 4
  const EIO := 5
  const EAGAIN := 11
  const ENOMEM := 12
  const EACCES := 13
  const EFAULT := 14
  const EEXIST := 17
  const EINVAL := 22
  const ENOSPC := 28
  const EROFS := 30
  const EOPNOTSUPP := 95
  const ETIMEDOUT := 110

  const PAGE_SIZE := 4096

  type Byte = b: int | 0 <= b < 256
}
