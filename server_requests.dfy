/** The sink through which the vault asks the compositor for things. Its three
    calls are fire-and-forget; the model records each call in `log`. */
module ServerRequests {
  import opened BufferTypes

  datatype Request =
    | AllocateRequest(size: Size, format: PixelFormat, usage: int)
    | FreeRequest(id: BufferId)
    | SubmitRequest(buffer: ClientBuffer)

  class ServerBufferRequests {
    /** Every request made so far, oldest first. */
    var log: seq<Request>

    method AllocateBuffer(size: Size, format: PixelFormat, usage: int)
      modifies this
      ensures log == old(log) + [AllocateRequest(size, format, usage)]
    {
      log := log + [AllocateRequest(size, format, usage)];
    }

    method FreeBuffer(id: BufferId)
      modifies this
      ensures log == old(log) + [FreeRequest(id)]
    {
      log := log + [FreeRequest(id)];
    }

    method SubmitBuffer(buffer: ClientBuffer)
      modifies this
      ensures log == old(log) + [SubmitRequest(buffer)]
    {
      log := log + [SubmitRequest(buffer)];
    }
  }
}
