/** What the image client sees of the container engine daemon: the records
    that the image-listing and image-history calls return, and the errors
    that the client returns to its caller. */
module Engine {

  /** The errors of the image client. `Daemon` stands for any error the
      daemon client returned; the client hands it back unchanged. */
  datatype Error =
    | LocalImageNotFound   // errLocalImageNotFound
    | InvalidRepo          // errors.New("invalid repo")
    | InvalidImageName     // errors.New("invalid image name")
    | Daemon(message: string)

  /** A Go `(value, error)` return. On the error path the Go functions of the
      client also return the zero value `""`, which `Err` leaves implicit. */
  datatype Result<+T> = Ok(value: T) | Err(error: Error)

  /** One entry of `ImageList`: the content identifier and the tags. */
  datatype Image = Image(id: string, repoTags: seq<string>)

  /** One entry of `ImageHistory`: the tags attached at that layer and the
      command that created it. */
  datatype HistoryRecord = HistoryRecord(tags: seq<string>, createdBy: string)

  /** The daemon as the client uses it: the answer to `ImageList`, and the
      answer to `ImageHistory` for each image id (newest layer first). */
  datatype Client = Client(
    imageList: Result<seq<Image>>,
    imageHistory: string -> Result<seq<HistoryRecord>>)
}
