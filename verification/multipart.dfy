/** The values the filter works on: decoded multipart parts, the request's
    attribute store, parameter maps, and the naming-convention constants the
    upload component supplies. */
module Multipart {
  import opened Strings

  /** One decoded multipart section: its field name and its content as text
      (`FileItem.getFieldName()` and `FileItem.getString()`). */
  datatype Part = Part(fieldName: string, text: string)

  /** The constants of the upload component: the suffix of a rendered file
      input's own id (`INPUT_ID`), the suffix of the hidden field naming an
      unlabelled upload (`INPUT_PARAM_ID`), and the two attribute names used
      to report a failed decode (`UPLOAD_ERROR_KEY`, `FILE_SIZE_KEY`). Their
      values are not fixed here: every property holds for any strings. */
  datatype Conventions = Conventions(
    inputId: string,
    inputParamId: string,
    uploadErrorKey: string,
    fileSizeKey: string)

  /** What a request attribute can hold: a decoded part, the decoder's
      exception, a text value, or any other object already on the request. */
  datatype AttrValue =
    | FileItem(part: Part)
    | UploadError(cause: string)
    | Text(value: string)
    | Opaque(id: nat)

  /** The request attribute store; `setAttribute` overwrites. */
  type Attributes = map<string, AttrValue>

  /** A servlet parameter map: name to `String[]`. */
  type Params = map<string, seq<string>>

  /** Every array in the map has an element 0, as servlet parameter maps do. */
  predicate WellFormed(params: Params) {
    forall k :: k in params ==> |params[k]| > 0
  }

  /** A field rendered as the file input itself: an upload attached directly. */
  predicate IsDirect(c: Conventions, name: string) {
    EndsWith(name, c.inputId)
  }

  /** A hidden field whose value names the field of an unlabelled upload. */
  predicate IsRouting(c: Conventions, name: string) {
    EndsWith(name, c.inputParamId)
  }
}
