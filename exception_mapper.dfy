/**
 * The exception mapper of the HTTP layer: from failure kind to status code and
 * response body. Only the project's own four HTTP exceptions are recognised;
 * everything else, the core's untranslated exceptions included, is a 500.
 */
module ExceptionMapper {
  import opened Records

  const LockedStatusCode: int := 423

  datatype Body = Text(text: string) | Descriptor(lock: LockInfo)

  datatype Response = Response(status: int, body: Body)

  /** The status codes the mapper can produce. */
  predicate KnownStatus(status: int)
  {
    status == 400 || status == 404 || status == 409 || status == 423 || status == 500
  }

  function ToResponse(f: Failure): (r: Response)
    ensures KnownStatus(r.status)
    ensures r.status == 400 <==> f.BadRequest?
    ensures r.status == 404 <==> f.NotFound?
    ensures r.status == 409 <==> f.Conflict?
    ensures r.status == 423 <==> f.Locked?
    ensures f.NotFound? ==> r.body == Text("Project " + f.name + " not found")
    ensures (f.Conflict? || f.Locked?) ==> r.body == Descriptor(f.lock)
    ensures r.status == 500 ==> r.body == Text("An unexpected error occurred")
  {
    match f
    case BadRequest => Response(400, Text("Bad request"))
    case NotFound(name) => Response(404, Text("Project " + name + " not found"))
    case Conflict(lock) => Response(409, Descriptor(lock))
    case Locked(lock) => Response(LockedStatusCode, Descriptor(lock))
    case _ => Response(500, Text("An unexpected error occurred"))
  }

  /** The guards' own failures, and the framework's bad request, fall through to the 500 branch. */
  lemma UntranslatedFailuresAre500(f: Failure)
    requires f.AlreadyLocked? || f.LockMismatch? || f.NotLocked? || f.FrameworkBadRequest?
             || f.NullDescriptorId? || f.UnreadableDescriptor? || f.NoSuchElement?
    ensures ToResponse(f).status == 500
  {
  }
}
