/** Optional values, results, and the exceptions the back end raises. */
module Wrappers {

  datatype Option<+T> = None | Some(value: T)

  /** The exceptions of the Django back end that the model distinguishes. */
  datatype Error =
    | Http404                       // django.http.Http404 / get_object_or_404
    | PermissionDenied              // django.core.exceptions.PermissionDenied
    | DoesNotExist                  // Model.objects.get found no row
    | MultipleObjectsReturned       // Model.objects.get found several rows
    | KeyError(key: string)         // a missing key of a dict
    | TypeError                     // an operand of the wrong type (for example None)
    | AttributeError                // an attribute looked up on an object that lacks it
    | ValueError(message: string)
    | Exception(message: string)    // a bare `raise Exception(message)`

  datatype Result<+T> = Ok(value: T) | Err(error: Error)
}
