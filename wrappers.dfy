/** Optional values, the exceptions the plugin raises, and the outcome of a call
    that may raise one of them. */
module Wrappers {

  datatype Option<+T> = None | Some(value: T)

  /** The exceptions the plugin's code can raise, each named after its cause. */
  datatype Error =
    | MountException(rc: int)   // the helper had exited when the grace period ended
    | PopenTypeError            // subprocess.Popen given an argument that is not a string
    | KillpgTypeError           // os.killpg called with one argument instead of two
    | StillMounted              // RuntimeError('Volume is still mounted!') from Volume.delete
    | MissingConfiguration      // KeyError from get_volume: unknown name, no hosts or path
    | UnknownName               // KeyError from dict.pop on a name that is not registered
    | AttributeError            // the draft reads an attribute that is never assigned, or calls into None
    | MissingKey(key: string)   // KeyError from reading a stored record without that key

  /** A call that returns nothing or raises. */
  datatype Outcome = Done | Raised(error: Error)

  /** A call that returns a value or raises. */
  datatype Result<+T> = Ok(value: T) | Err(error: Error)
}
