/** The exceptions that end an import run before anything is written or reported. */
module Stops {
  datatype Fatal =
    | NoHeader                          // the iterator ran dry (StopIteration) before a header
    | DuplicateHeaderField(name: string)
    | WrongCodePage(column: string)     // a cell that cannot be decoded: a short row's missing cell
    | MissingMethod(column: string)     // the dispatch table entry has no 'method' (KeyError)
    | UnrenderableLine                  // a missing cell reaches `join` in the error formatter (TypeError)
}
