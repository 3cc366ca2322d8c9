# UploadFilter — a Dafny model

`UploadFilter` is the servlet filter of the Woodstock JSF components that
turns a `multipart/form-data` request into something the rest of the
application can read like an ordinary form post. This project models its
core as pure Dafny functions and proves what callers rely on:

- **`parseRequest`** (module `Reconciler`). The first pass stores every part
  whose field name ends in `INPUT_ID` as a request attribute under its own
  name, the last such part winning. Every other part goes into a group of
  its name inside a `TreeMap`. The second pass walks the groups in key order
  and picks out the routing keys, those ending in `INPUT_PARAM_ID`. The text
  of a routing key's first part names a target. For each target that has a
  group, that group's first part is published as the attribute
  `target + INPUT_ID`. Routing keys and matched targets are then removed,
  and each remaining group becomes one parameter holding its texts in
  arrival order.
- **`doFilter`** (module `Filter`). A non-multipart request is passed on
  untouched. A failed decode sets `UPLOAD_ERROR_KEY` to the exception and
  `FILE_SIZE_KEY` to `maxSize` as decimal text, then continues with an empty
  parameter map. The original request's own parameters (module `Merger`)
  are then merged in, and the merged map is wrapped.
- **`UploadRequest`** (module `ParameterView`). The wrapper answers every
  parameter read from the merged map.
- **`init`** (module `FilterConfig`). Reads `maxSize`, `sizeThreshold` and
  `tmpDir`. Each rejected value adds a message to an error buffer, and a
  non-empty buffer makes `init` throw.

Supporting modules:

- `Multipart`: parts, attributes and the naming conventions.
- `FieldMaps`: the `TreeMap` of groups, with keys kept sorted under
  `String.compareTo`'s lexicographic order (module `Strings`).
- `Decimal`: `Long.parseLong`, `Integer.parseInt` and `String.valueOf(long)`.

The `Upload` constants `INPUT_ID`, `INPUT_PARAM_ID`, `UPLOAD_ERROR_KEY` and
`FILE_SIZE_KEY` are not defined in `UploadFilter.java`. They are a
`Conventions` parameter, so every result holds whatever their values are.

**A shared parameter name throws.** The comment at lines 205-206 and the
`else` branch of the merge loop read as if a parameter present both in the
body and in the original request should end up with the body's values
followed by the original value. The code does something else. For a shared
name it calls `add` on the list returned by `Arrays.asList`, and that list
has a fixed size, so the call throws `UnsupportedOperationException`. The
model follows the code: the merge yields `UnsupportedAdd(name)` for the
first shared name in enumeration order. `Filter.SharedFieldThrows` states
this for any field that stays a body parameter (not a direct upload, a
routing key or a routed target) and is also sent in the original request, and `Filter.ColorsThrow`
works one concrete request (`colors`) through to the exception.

## Model

| member | source | states |
|---|---|---|
| Reconciler.Classify | woodstock-webui-jsf/src/main/java/com/sun/webui/jsf/util/UploadFilter.java:260-293 | The first pass leaves a sorted TreeMap whose keys are exactly the non-direct field names, each group being exactly the parts of that name in arrival order. Every direct name becomes an attribute holding its last part, and all other attributes are untouched. |
| Reconciler.ScanRouting | woodstock-webui-jsf/src/main/java/com/sun/webui/jsf/util/UploadFilter.java:307-323 | The second pass marks exactly the keys with the routing suffix for removal. Each marked key's target is the text of its group's first part, so later values are not consulted. |
| Reconciler.AttachUnlabeled | woodstock-webui-jsf/src/main/java/com/sun/webui/jsf/util/UploadFilter.java:328-346 | A target is marked for removal exactly when it has a group, and its first part is published under `target + INPUT_ID`. A target without a group is skipped, and no other attribute changes. |
| Reconciler.ValuesOf | woodstock-webui-jsf/src/main/java/com/sun/webui/jsf/util/UploadFilter.java:365-388 | The single-part and multi-part branches both yield one value per part, namely that part's text, in order. |
| Reconciler.ParseRequest | woodstock-webui-jsf/src/main/java/com/sun/webui/jsf/util/UploadFilter.java:245-390 | Every parameter array is non-empty, and no parameter name carries the direct suffix. |
| Reconciler.RoutingStage | woodstock-webui-jsf/src/main/java/com/sun/webui/jsf/util/UploadFilter.java:307-346 | The keys the second pass removes are exactly the routing field names. The targets it resolves are exactly the routing targets that name an existing group. |
| Reconciler.ParamsListed | woodstock-webui-jsf/src/main/java/com/sun/webui/jsf/util/UploadFilter.java:348-389 | The parameter names are exactly the non-direct field names minus the routing keys and the matched targets. Each parameter holds all texts of its name in arrival order. |
| Reconciler.ParamsCharacterized | woodstock-webui-jsf/src/main/java/com/sun/webui/jsf/util/UploadFilter.java:245-390 | The parameter map equals an independent, order-free definition computed from the parts alone. |
| Reconciler.AttributesCharacterized | woodstock-webui-jsf/src/main/java/com/sun/webui/jsf/util/UploadFilter.java:269-346 | Attributes afterwards: the earlier ones, plus each direct name with its last part, plus each matched target's first part under `target + INPUT_ID`, the routed write winning. Nothing else is added or changed. |
| Reconciler.AttributesAsExpected | woodstock-webui-jsf/src/main/java/com/sun/webui/jsf/util/UploadFilter.java:245-390 | The attributes equal an independent definition computed from the parts and the earlier attributes. |
| ReconcilerLaws.DirectPartIsAttribute | woodstock-webui-jsf/src/main/java/com/sun/webui/jsf/util/UploadFilter.java:275-279 | Any part named with the direct suffix ends up as an attribute and never as a parameter. The attribute holds the last such part unless a routed upload overwrote it. |
| ReconcilerLaws.RoutedUpload | woodstock-webui-jsf/src/main/java/com/sun/webui/jsf/util/UploadFilter.java:313-355 | A routing field whose value names a group publishes that group's first part as `target + INPUT_ID`. Neither the routing field nor the target stays a parameter. |
| ReconcilerLaws.UnmatchedRouting | woodstock-webui-jsf/src/main/java/com/sun/webui/jsf/util/UploadFilter.java:332-346 | A routing field whose target has no group is dropped silently. It is not a parameter, and no routed attribute appears for its target. |
| ReconcilerLaws.LaterRoutingValuesIgnored | woodstock-webui-jsf/src/main/java/com/sun/webui/jsf/util/UploadFilter.java:313-316 | One more value for a routing field changes neither the attributes nor the parameters. |
| ReconcilerLaws.PlainFieldsOnly | woodstock-webui-jsf/src/main/java/com/sun/webui/jsf/util/UploadFilter.java:280-292 | Without direct or routing names the attributes are untouched, and there is one parameter per field name with all its texts in order. |
| FieldMaps.Insert | woodstock-webui-jsf/src/main/java/com/sun/webui/jsf/util/UploadFilter.java:263-264 | A new TreeMap key is placed so that the keys stay strictly ascending, and the key set grows by exactly that key. |
| FieldMaps.Append | woodstock-webui-jsf/src/main/java/com/sun/webui/jsf/util/UploadFilter.java:284-291 | After the add, the name's group is the previous list (or a new one) with the part at its end. The map stays sorted, and no other group changes. |
| Merger.MergeOriginal | woodstock-webui-jsf/src/main/java/com/sun/webui/jsf/util/UploadFilter.java:208-222 | The merge completes exactly when no original name is already a body parameter, and a failure names a shared parameter. On completion, body parameters are kept and each original name holds its first value. |
| Merger.MergeIsUnion | woodstock-webui-jsf/src/main/java/com/sun/webui/jsf/util/UploadFilter.java:208-222 | Over a complete enumeration, the merge succeeds exactly when the two key sets are disjoint. Its result is then the body map plus each original parameter's first value, whatever the enumeration order. |
| ParameterView.GetParameterValues | woodstock-webui-jsf/src/main/java/com/sun/webui/jsf/util/UploadFilter.java:497-512 | Returns the stored array for a known name, and null for an unknown one. |
| ParameterView.GetParameter | woodstock-webui-jsf/src/main/java/com/sun/webui/jsf/util/UploadFilter.java:481-495 | Returns null exactly when `getParameterValues` does, and otherwise that array's first element. |
| ParameterView.GetParameterNames | woodstock-webui-jsf/src/main/java/com/sun/webui/jsf/util/UploadFilter.java:514-517 | Enumerates exactly the names `getParameterValues` answers for. |
| ParameterView.GetParameterMap | woodstock-webui-jsf/src/main/java/com/sun/webui/jsf/util/UploadFilter.java:519-522 | Agrees with `getParameterValues` on every name. |
| Filter.DoFilter | woodstock-webui-jsf/src/main/java/com/sun/webui/jsf/util/UploadFilter.java:161-237 | The request is passed on untouched exactly when it is not multipart. A wrapped request keeps every original parameter name, and its arrays are non-empty. |
| Filter.BodyFields | woodstock-webui-jsf/src/main/java/com/sun/webui/jsf/util/UploadFilter.java:189-203 | The parameter map the merge starts from has non-empty arrays, whether the decode succeeded or failed. |
| Filter.DecodeFailureContinues | woodstock-webui-jsf/src/main/java/com/sun/webui/jsf/util/UploadFilter.java:191-224 | A failed decode still forwards the request. The error and `maxSize` text are set, and the text reads back as `maxSize` with `Long.parseLong`. Other attributes are untouched, and the wrapper holds only the original parameters' first values. |
| Filter.DecodeFailureAttrsSet | woodstock-webui-jsf/src/main/java/com/sun/webui/jsf/util/UploadFilter.java:193-196 | The exception goes under `UPLOAD_ERROR_KEY` and `String.valueOf(maxSize)` under `FILE_SIZE_KEY`, in that order; no other attribute changes. |
| Filter.DecodedRequest | woodstock-webui-jsf/src/main/java/com/sun/webui/jsf/util/UploadFilter.java:199-224 | After a decode, the request is forwarded exactly when no original parameter shares a name with a body parameter, and then holds the union. Otherwise the merge throws on a shared name. Either way the attributes are those `parseRequest` set. |
| Filter.SharedFieldThrows | woodstock-webui-jsf/src/main/java/com/sun/webui/jsf/util/UploadFilter.java:208-221 | A field that `parseRequest` leaves as a body parameter (not a direct upload, routing key or matched target) and that is also among the original request's parameters makes the merge throw, so no wrapper is built. The exception names a shared parameter, and the attributes are those `parseRequest` set. |
| Filter.ColorsThrow | woodstock-webui-jsf/src/main/java/com/sun/webui/jsf/util/UploadFilter.java:208-221 | Body `colors` = `red`, `blue` together with a query `colors` = `green` ends in the `add` exception on `colors`, not in three values. |
| Filter.ForwardedReads | woodstock-webui-jsf/src/main/java/com/sun/webui/jsf/util/UploadFilter.java:205-224 | In the forwarded request, a body field reads as its texts in order and an original parameter as its first value. A routing key or matched target that the original request does not also carry reads as null. |
| Filter.DefaultLimitText | woodstock-webui-jsf/src/main/java/com/sun/webui/jsf/util/UploadFilter.java:110 | With the default limit, the size reported after a failed decode is the text `1000000`. |
| FilterConfig.Init | woodstock-webui-jsf/src/main/java/com/sun/webui/jsf/util/UploadFilter.java:431-434 | `init` throws only with a non-empty message buffer. |
| FilterConfig.InitSucceedsIff | woodstock-webui-jsf/src/main/java/com/sun/webui/jsf/util/UploadFilter.java:393-435 | `init` succeeds exactly when each given parameter is acceptable: a long, an int, a writable directory. The fields then hold the parsed values, or the defaults where a parameter is absent. |
| FilterConfig.InitDefaults | woodstock-webui-jsf/src/main/java/com/sun/webui/jsf/util/UploadFilter.java:106-121 | With no init parameters, the fields are 1,000,000 bytes, 4,096 bytes and the `java.io.tmpdir` directory. |
| FilterConfig.UnparsableMaxSize | woodstock-webui-jsf/src/main/java/com/sun/webui/jsf/util/UploadFilter.java:395-405 | An unparsable `maxSize` keeps the default, puts its message in the buffer, and makes `init` throw. |
| FilterConfig.UnparsableSizeThreshold | woodstock-webui-jsf/src/main/java/com/sun/webui/jsf/util/UploadFilter.java:406-417 | An unparsable `sizeThreshold` keeps the default, puts its message in the buffer, and makes `init` throw. |
| FilterConfig.MaxSizeTextRoundTrip | woodstock-webui-jsf/src/main/java/com/sun/webui/jsf/util/UploadFilter.java:395-398 | A `maxSize` given as the decimal text of any long configures exactly that long. |
| Decimal.ParseLong | woodstock-webui-jsf/src/main/java/com/sun/webui/jsf/util/UploadFilter.java:398 | Any text `Long.parseLong` accepts starts with a sign or a digit, is not a lone sign, has only digits after its first character, and has a value in the 64-bit range. |
| Decimal.ParseInt | woodstock-webui-jsf/src/main/java/com/sun/webui/jsf/util/UploadFilter.java:409 | Any text `Integer.parseInt` accepts has the same shape (never a lone sign) and a value in the 32-bit range. |
| Decimal.LongTextRoundTrip | woodstock-webui-jsf/src/main/java/com/sun/webui/jsf/util/UploadFilter.java:195-196 | `Long.parseLong` reads back the text `String.valueOf` writes for any long. |
| Decimal.IntTextIsLongText | woodstock-webui-jsf/src/main/java/com/sun/webui/jsf/util/UploadFilter.java:398-409 | Any text `Integer.parseInt` accepts, `Long.parseLong` accepts with the same value. |
| Decimal.ParseLongValue | woodstock-webui-jsf/src/main/java/com/sun/webui/jsf/util/UploadFilter.java:398 | An optional `-` or `+` followed by at least one ASCII digit parses to its signed decimal value, and is rejected exactly when that value lies outside the 64-bit range. Leading zeros, `+` and `-0` are covered. |
| Decimal.ParseIntValue | woodstock-webui-jsf/src/main/java/com/sun/webui/jsf/util/UploadFilter.java:409 | The same texts parse with `Integer.parseInt` to their signed value, and are rejected exactly when it lies outside the 32-bit range. |
| Decimal.LongToString | woodstock-webui-jsf/src/main/java/com/sun/webui/jsf/util/UploadFilter.java:195-196 | `String.valueOf(long)` gives a text that starts with `-` exactly when the value is negative. The rest is a non-empty run of ASCII digits with no leading zero, so there is no `+` and no padding. |
| Decimal.IntTextRoundTrip | woodstock-webui-jsf/src/main/java/com/sun/webui/jsf/util/UploadFilter.java:409 | `Integer.parseInt` reads back the decimal text of any int. |
| FilterConfig.SizeThresholdTextRoundTrip | woodstock-webui-jsf/src/main/java/com/sun/webui/jsf/util/UploadFilter.java:406-409 | A `sizeThreshold` given as the decimal text of any int configures exactly that int, with the other fields at their defaults. |

## Left out

- Multipart decoding itself is an input: `Decoded(parts)` or `DecodeFailed(cause)`. That covers `ServletFileUpload.parseRequest`, the size limit it enforces, the disk item factory and the header encoding (lines 167-188).
- `isMultipartContent` is a boolean input.
- A part is modelled as its field name and its text (`getString()`). File contents, content types and disk storage are not modelled.
- `chain.doFilter` and the clean-up loop that deletes `FileItem` attributes after the chain returns (lines 225-233) are not modelled: both are effects on code outside the filter.
- The `HttpServletRequestWrapper` methods that `UploadRequest` does not override only delegate, so they are not modelled.
- The values of the `Upload` constants are not part of `UploadFilter.java`. They are a parameter of every operation.
- `init`'s messages come from a resource bundle through `MessageUtil`. The buffer is modelled as a sequence of entries (a separating blank, or a message naming the parameter and value), not as formatted text. `init` throws when the buffer's text is non-empty (lines 431-433). Because the `maxSize` message is appended with no blank before it (line 403), the model's rule "any entry makes `init` throw" assumes `MessageUtil.getMessage` never returns the empty string.
- Whether `tmpDir` is writable is a filesystem query, supplied as a boolean.
- The `java.io.tmpdir` default is supplied as a parameter.
- `Decimal.ParseLong`: accepts only ASCII digits. `Character.digit` also accepts other Unicode decimal digits, so such texts are rejected by the model and accepted by `Long.parseLong`.
- `Decimal.ParseInt`: accepts only ASCII digits, for the same reason.
- `FieldMaps.Insert`: orders keys by code point. `String.compareTo` compares UTF-16 code units, and the two orders differ only between supplementary characters and characters in U+E000..U+FFFF. Key order affects only the order of `removes` and `unlabeledUploads`, never the resulting maps (`Reconciler.ParamsCharacterized`, `Reconciler.AttributesAsExpected`).
- `ParameterView.GetParameter`: requires the stored array at a known name to be non-empty. The source would throw `ArrayIndexOutOfBoundsException` on an empty array, but every map the filter builds is non-empty everywhere (`Filter.DoFilter`).
- The branches of `getParameter` and `getParameterValues` for a stored value that is not a `String[]` cannot be reached: the map only ever holds `String[]` values.
- Debug logging, `toString` and `destroy` have no effect on the filter's results.
- Thread safety: the filter fields are written by `init` and then only read.
- `ParameterView.GetParameterMap`: aliasing is not modelled. In the source, `getParameterMap` returns the wrapper's own `HashMap` (lines 519-522) and `getParameterValues` returns the stored `String[]` itself (lines 507-508). A caller's `put`, `remove` or array write therefore changes later reads, and putting an empty array makes `getParameter` throw (line 489). The model treats the map and arrays as values. Repeated reads agree only if no caller mutates what was returned.
