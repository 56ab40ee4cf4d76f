/** The ways one notification can fail. In the Lambda every one of them is an
    uncaught Python exception that ends the invocation; here each is a value. */
module Errors {

  datatype Error =
      /** The stub does not start with 'd' ("Invalid video file name"). */
    | InvalidFileName(stem: string)
      /** `stem[index]` is past the end of the stem (an IndexError). */
    | StemTooShort(stem: string, index: nat)
      /** The scroll character is not a key of the scroll table (a KeyError). */
    | UnknownScrollCode(code: char)
      /** The weapon character is not a key of the weapon table. */
    | UnknownWeaponCode(code: char)
      /** The drill character is not a key of the kdm table. */
    | UnknownDrillCode(code: char)
      /** The direction character is not a key of the goshin table. */
    | UnknownDirectionCode(code: char)
      /** No run of digits follows the scroll character (`temp[0]` on an empty list). */
    | NoItemNumber(stem: string)
      /** The scan returned no item (`response['Items'][0]` on an empty list). */
    | NoMatchingRecord
      /** `handle_scroll` was given a name it has no branch for. */
    | UnknownScroll(scroll: string)
      /** The directory lists no table after the scroll's name prefix. */
    | NoTableForScroll(prefix: string)
      /** The resolved table name names no table of the store. */
    | TableNotFound(name: string)
}
