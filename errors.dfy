/** Optional values, the generator's failure kinds and a result type carrying them. */
module Errors {

  datatype Option<+T> = None | Some(value: T)

  /** Why building a part of the deposit failed. */
  datatype Error =
    | DataNotLoaded                      // the spreadsheets were not read yet (the frames are still None)
    | NoJournalRow                       // the journal frame has no first row
    | MissingResourceUrl(title: string)  // an article has no valid full-text URL; carries its title or "(untitled)"

  datatype Result<+T> = Ok(value: T) | Err(error: Error)
}
