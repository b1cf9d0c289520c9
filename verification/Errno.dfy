/** The status codes the C code returns as zero or a negative errno value. */
module Errno {

  datatype Status =
    | Ok
    | EACCES | EBADMSG | EBUSY | EEXIST | EINVAL | EIO | EISDIR | EMSGSIZE | ENAMETOOLONG
    | ENOBUFS | ENODEV | ENOENT | ENOMEM | ENOSPC | ENOTDIR | ENOTSUP
    | EOther(code: int)
}
