/** Option and Result types for the model, and the exceptions of the modelled
    Python code as one tagged variant.

    Every function of the model that can raise in getmedia.py or tootbot.py
    returns a `Result`; `Err` carries the `Failure` that stands for the exception. */
module Results {

  datatype Option<+T> = None | Some(value: T)

  /** The exceptions raised by the modelled code, each tagged with what
      raised it. The comment on each variant names the Python class. */
  datatype Failure =
      /** AssertionError: a response status other than 200 */
    | BadStatus(url: string, status: int)
      /** AssertionError: an empty Imgur credential */
    | EmptyCredential(setting: string)
      /** AssertionError: Giphy returned its "content not available" GIF */
    | PlaceholderGif(url: string)
      /** KeyError: a JSON payload or a response header lacks a key */
    | MissingKey(key: string)
      /** IndexError: an Imgur album whose image list is empty */
    | EmptyAlbum
      /** ValueError: `with_suffix` on a path with an empty name */
    | EmptyName
      /** IsADirectoryError: `save_file` opened the media folder itself for
          writing, because the URL path has no file name */
    | IsADirectory(url: string)
      /** ValueError: the generic branch met a content type that is not an image */
    | NotAnImage(url: string)
      /** ValueError: `strtobool` met a word that is neither true nor false */
    | InvalidBoolean(text: string)
      /** TypeError: `get_media` called with one positional argument instead of two */
    | WrongArity

  datatype Result<+T> = Ok(value: T) | Err(error: Failure) {

    predicate IsFailure() {
      Err?
    }

    function PropagateFailure<U>(): Result<U>
      requires Err?
    {
      Err(error)
    }

    function Extract(): T
      requires Ok?
    {
      value
    }
  }
}
