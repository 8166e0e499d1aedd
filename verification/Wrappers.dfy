/** The option and result types shared by the other modules. */
module Wrappers {

  datatype Option<+T> = None | Some(value: T)

  /** What an exception is to its handler: a CMSException, or anything else. */
  datatype Exn = CmsException | OtherException

  datatype Result<+T> = Ok(value: T) | Throws(exn: Exn)

  /** How the CMS provider answers one call that may fail. */
  datatype Outcome = Fine | Fails(exn: Exn)
}
