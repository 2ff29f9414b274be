# courier: the request-chaining engine, modelled in Dafny

courier runs a list of HTTP requests from a YAML configuration. It runs them in
order, against one shared map of variables. Before a request is sent, its header
values, name, endpoint and body are templated with the current variables. After
the response arrives, the request's `vars` bindings pull values out of the JSON
body by paths such as `data[0].id`. Each value is written into a variable that the
configuration must already declare, so the next request sees it.

In normal mode each response body is printed, and the first failure ends the
process. In test mode (`-t`) each request is checked against its expected status
and expected `{...}` fragment, and the loop always goes on. The only exception, in
both modes, is a request whose templates cannot be resolved: that ends the process.

The model is functional. A decoded JSON value is the tagged union `Json`. The
variables are a `Json` value. A configuration without `vars:` leaves them nil
(cmd/main.go:16, 169). A use case with `vars` then fails at its first binding, with
"value is not a map" once that binding's path extracts. Every
operation returns a `Result`, `Option` or outcome record instead of mutating.

Things the engine does not control are inputs to the model:
- the template engine, as a `Resolver` function;
- the HTTP exchange, as an `Exchange` value, or a `server` function in the loop;
- the JSON pretty-printer;
- file existence, as a predicate;
- Go's map iteration order, as a sequence that enumerates the map's keys.

Modules:

- `Text`: the Go `strings` functions the engine uses: `Index`, `ReplaceAll` of
  spaces, `Split`, `Contains`, and ASCII `ToLower`.
- `Strconv`: `strconv.Atoi` for 64-bit `int`, and `%d`.
- `Scan`: `extractSubstringBetween`.
- `Binder`: `getValueForKey`, `setValueForKey` and `seekAndSetEnv`. It includes the
  path walk and the binding loop, written for any extractor.
- `Paths`: a typed reference semantics for binding paths. The textual extractor
  agrees with it on every rendered path.
- `Exchange`: `responseToString`, `Curl` and the `Test` verdict.
- `Template`: the resolver type, and the four facts the template tests assert.
- `UseCases`: `NewAPIUseCase`, `Prefix`, and the use-case level `Curl` and `Test`.
- `Legacy`: the older variant in `internal/usecase.go`.
- `Runner`: `getConfigFile`, and the request loop of `main` as a fold.
- `Examples`: the binding tests of `usecase_test.go`, and a few failures on the
  same document.

## Model

| member | source | states |
|---|---|---|
| Text.IndexOf | usecase.go:269-270 | -1 exactly when the character is absent; otherwise a position holding it, with no earlier occurrence |
| Text.RemoveSpaces | usecase.go:206-207 | the result has no space, its length is the input's minus the number of spaces in it, and it equals an input that had no space |
| Text.RemoveSpacesAppend | usecase.go:206-207 | removing spaces from `a + b` is removing them from `a` and from `b` and concatenating, so every other character is kept, in order |
| Text.RemoveSpacesIdempotent | usecase.go:206-207 | removing spaces a second time changes nothing |
| Text.Split | usecase.go:200 | at least one piece, no piece holds the separator, and joining the pieces with it gives the input back |
| Text.SplitJoin | usecase.go:200 | splitting a join of separator-free pieces gives the pieces back |
| Text.ToLower | usecase.go:127-129 | same length, each character lower-cased |
| Text.ToLowerIdempotent | usecase.go:127-129 | no upper-case ASCII letter is left, and lower-casing twice is lower-casing once |
| Text.Contains | usecase.go:132 | true exactly when the needle occurs at some position of the haystack |
| Text.ContainsEmpty | usecase.go:132 | the empty string is contained in every string |
| Text.ContainsImpliesContainsFold | usecase.go:127-132 | a case-sensitive occurrence is also a case-insensitive one |
| Strconv.Atoi | usecase.go:210-213 | success exactly on an optional sign followed by at least one digit whose signed value is in the 64-bit range, giving that signed value (so `01` and `+1` read as 1); an all-digit text out of range is a range error; the empty string, a bare sign, and a text of at most 19 characters after the sign that holds a non-digit are syntax errors |
| Strconv.ScanUintSyntax | usecase.go:210-213 | within 19 characters the scan cannot overflow before a non-digit, so a non-digit is reported as a syntax error |
| Strconv.FormatInt | usecase.go:227 | `%d` prints an optional minus sign and then digits, with no leading zero |
| Strconv.AtoiFormatInt | usecase.go:210 | `Atoi` reads back every 64-bit integer that `%d` prints |
| Scan.ExtractSubstringBetween | usecase.go:268-279 | if the first start delimiter comes before the first end delimiter: the text strictly between them and the text before the start; otherwise the empty string and the whole input |
| Scan.FirstBeforeIndexes | usecase.go:269-272 | Both delimiters occur and the first start delimiter lies before the first end delimiter exactly when both `strings.Index` results are not -1 and the start's is smaller. |
| Scan.ExtractBracketed | usecase.go:268-279 | `pre`, start, `mid`, end, then anything, with no delimiter in `pre` and no end delimiter in `mid`, scans to `(mid, pre)` |
| Binder.GetValueForKey | usecase.go:281-290 | success exactly on an object with the key, giving its value; "value is not a map" for a non-object; "key not found" for a missing key |
| Binder.SetValueForKey | usecase.go:292-301 | on an object declaring the key: writes it, keeps the key set, and touches no other key; an undeclared key is refused with "not defined in the config"; a non-object is "not a map" |
| Binder.ParseSegment | usecase.go:205-209 | key and index come without spaces; an indexed segment has a non-empty index; a segment without a `[`…`]` pair is the bare key with spaces removed |
| Binder.ParseIndexedSegment | usecase.go:205-209 | `key[index]tail` reads as key and index with spaces removed, and the tail is ignored |
| Binder.ParseEmptyIndex | usecase.go:205-209 | `key[]`, or brackets holding only spaces, reads as the bare key |
| Binder.StepInto | usecase.go:209-240 | a bare step succeeds exactly on an object holding the key, and descends into it. An indexed step reports the `Atoi` error first. It then succeeds exactly when the member is an array with `0 <= i < length`, and descends into element `i`. Its failure is "response does not contain" when the member is missing, "not an array" when the member is not an array, and "index out of bounds", naming the key and the length, otherwise |
| Binder.WalkAppend | usecase.go:204-241 | walking `a + b` is walking `a`, then walking `b` from where `a` ended |
| Binder.BindEachSucceeds | usecase.go:199-248 | the binding loop succeeds exactly when the environment is an object declaring every target and every path extracts |
| Binder.BindEachWrites | usecase.go:199-248 | binding keeps the declared key set. Each variable ends with its old value or with the value its own path selects, and variables not bound keep their value. On success, every bound variable holds its extracted value |
| Binder.NonObjectUntouched | usecase.go:243-246 | binding into a non-object environment writes nothing |
| Binder.SeekAndSetEnv | usecase.go:198-251 | whatever the map order: it succeeds exactly when every path extracts and every target is declared, and then the result is the expected environment. A failure keeps the key set, and each variable holds its old value or its extracted one |
| Binder.SeekAndSetEnvOrderIrrelevant | usecase.go:199 | success and the environment written do not depend on the order Go's map iteration takes |
| Paths.ParseRenderedStep | usecase.go:205-209 | the scanner reads a rendered typed step back as the matching segment |
| Paths.StepRendered | usecase.go:209-240 | one rendered step, scanned and taken, equals the typed step, errors included |
| Paths.WalkRendered | usecase.go:204-241 | walking the rendered segments equals the typed lookup |
| Paths.ExtractRendered | usecase.go:198-241 | the extractor computes the typed lookup of every non-empty spellable path, errors included |
| Exchange.ResponseToString | usecase.go:170-196 | a read failure gives no text. Without variables the body comes back undecoded. With variables, a decode failure or a binding failure still returns the body with the error. Binding results pass through |
| Exchange.NoVarsNoDecode | usecase.go:179-181 | without variables the outcome does not depend on whether the body is JSON |
| Exchange.Curl | usecase.go:97-109 | the body on success; an empty output on any error; a transport failure leaves the environment unchanged |
| Exchange.Test | usecase.go:111-137 | transport, read, decode and binding errors come first, then a status mismatch. Then the check fails exactly when the lower-cased expectation is not contained in the lower-cased body |
| Exchange.EmptyExpectationPasses | usecase.go:127-136 | with an empty expectation, a test passes exactly when the exchange and binding succeed and the status matches |
| UseCases.Prefix | usecase.go:139-145 | unnamed, it is the method, one space and the endpoint; named, it starts with `[` and ends with the endpoint |
| UseCases.PrefixNamed | usecase.go:139-145 | a named prefix is `[`, the name, `] `, then the unnamed prefix `Method Endpoint` |
| UseCases.PrefixShowsName | usecase.go:139-145 | the name of a named use case is read back from its prefix by the bracket scanner |
| UseCases.ResolveHeaders | usecase.go:65-72 | succeeds exactly when every header in the order resolves, giving the resolved values; otherwise it fails with the original value of a header that does not resolve |
| UseCases.HeaderOrderCovers | usecase.go:66-71 | whatever the map order: the header loop succeeds exactly when every header resolves, and a failure names one of the header values |
| UseCases.NewApiUseCase | usecase.go:52-95 | method, vars, expected status, expected response and delay are copied. Headers, name, endpoint and body are resolved in that order. The first failure returns the fields resolved so far, with an error naming the field and its unresolved value. A header failure keeps the original header map |
| UseCases.MaterializeVerbatim | usecase.go:52-95 | with a resolver that changes nothing, materialisation succeeds and changes no field |
| UseCases.ExpectationBracketed | usecase.go:128 | an expectation written as `{...}` after brace-free text is read back |
| UseCases.ExpectationWithoutBraces | usecase.go:128 | a `WantResponse` without a `{`…`}` pair expects the empty string |
| UseCases.Curl | usecase.go:97-109 | succeeds exactly when the response arrived, its body was read, and (with variables) it decoded and bound. The output is the body on success and empty on error. A success leaves the expected environment |
| UseCases.Test | usecase.go:111-137 | passes exactly when the exchange and binding succeed, the status matches, and the body contains the `{...}` expectation case-insensitively. Binding results persist in the environment |
| Legacy.ExtractSubstringBetween | internal/usecase.go:228-239 | the same as the current scanner when the first start delimiter comes first; otherwise `("", "")` |
| Legacy.SameDelimitedText | internal/usecase.go:228-239 | both scanners find the same text between the delimiters |
| Legacy.LegacyStep | internal/usecase.go:166-200 | a segment the current scanner reads as indexed is taken exactly as in usecase.go, and binds the element it descends into. Any other segment is looked up as written, spaces and all, at the current depth, which does not change |
| Legacy.BareSegment | internal/usecase.go:194-200 | a segment without `[` is looked up as written at the current depth, which does not change; a miss is "response does not contain" that segment |
| Legacy.BareWalk | internal/usecase.go:166-201 | a walk over bare segments succeeds exactly when every segment is a key at the starting depth, and yields the value of the last one |
| Legacy.BarePath | internal/usecase.go:160-201 | a comma path of bare keys needs every key at the response root, and binds the root value of the last key |
| Legacy.SeekAndSetEnv | internal/usecase.go:160-211 | the same success condition, expected environment and key-set preservation as the current binder, over legacy paths |
| Legacy.NewApiUseCase | internal/usecase.go:42-62 | no error result: every header and the endpoint are resolved. Name and body are copied verbatim, and so are method, vars and expectations |
| Legacy.LegacyLeavesNameAndBody | internal/usecase.go:42-62 | where the current materialisation succeeds, the legacy one gives the same headers and endpoint but leaves the name and body untemplated |
| Legacy.Prefix | internal/usecase.go:106-112 | the same prefix as the current `Prefix` |
| Legacy.Curl | internal/usecase.go:64-76 | an empty output on error and the body on success; succeeds exactly when the exchange, read, decode and legacy binding succeed; once the body is read and decoded, the environment is the one the legacy binding leaves; when no binding runs (transport, read or decode failure, or no vars) the environment is unchanged |
| Legacy.Test | internal/usecase.go:78-104 | equal to the shared exchange check `Exchange.Test` (transport, read, binding, then status, then containment) over legacy binding and the `{...}` expectation the current scanner finds; so a binding error wins over a status mismatch, and bindings are kept in the environment when the status is wrong |
| Runner.GetConfigFile | cmd/main.go:27-44 | succeeds exactly when one of the given name, `courier.yaml` and `.courier/config.yaml` exists. The file chosen exists, and the name has priority over the default. A failure is "configuration file not found" |
| Runner.ConfigIsFirstPresent | cmd/main.go:27-44 | the chosen file is the first existing one of the three candidates, in order |
| Runner.FirstPresent | cmd/main.go:27-44 | the result is a candidate that exists; there is none exactly when no candidate exists |
| Runner.Step | cmd/main.go:168-210 | One iteration prints one event and keeps the variables' key set. A materialisation failure ends the process in both modes, before anything is sent, printing the partial prefix and the error. In test mode the iteration ends the process only then, and it passes exactly when `Test` passes. In normal mode it ends the process exactly when it reports a failure |
| Runner.StepTesting | cmd/main.go:176-184 | in test mode, a materialised request reports under its prefix: the `Test` error as a failure, or a pass |
| Runner.StepNormal | cmd/main.go:187-209 | outside test mode, a materialised request ends the process exactly when `Curl` fails or, under `-json`, the pretty-printer rejects the body; the event is then that error under the prefix, and otherwise the body, pretty-printed under `-json` |
| Runner.StepEnv | cmd/main.go:176-209 | the environment an iteration leaves is unchanged when the request cannot be materialised, and otherwise is the one `Test` or `Curl` left, failed or not |
| Runner.Fold | cmd/main.go:168-210 | one event per item until an iteration ends the process, and then the last event is that failure; the key set is kept |
| Runner.FoldAppend | cmd/main.go:168 | folding over `a + b` is folding over `a`, then over `b` from the environment `a` left, unless `a` ended the process |
| Runner.FoldFailFast | cmd/main.go:187-209 | when only failing iterations stop, every event is a shown body except possibly the last, which is then the failure |
| Runner.FoldReportsOnly | cmd/main.go:176-185 | when iterations only report, no body is shown, and the loop stops only over a template failure |
| Runner.FoldRunsAll | cmd/main.go:176-185 | when no iteration stops, the loop reaches the end |
| Runner.Run | cmd/main.go:168-210 | the request loop: one event per request until the process ends, the last event being the failure that ended it |
| Runner.RunIsFold | cmd/main.go:168-210 | the loop is the generic fold of one iteration over the requests, and that iteration meets what the fold needs |
| Runner.RunAppend | cmd/main.go:168-169 | running `a + b` is running `a`, then running `b` against the environment `a`'s bindings left, unless `a` ended the process |
| Runner.RunOne | cmd/main.go:168-210 | the loop over a single request is that request's iteration |
| Runner.NormalStopsAtFailure | cmd/main.go:168-192 | outside test mode, a request that cannot be materialised or whose `Curl` fails is the last one run: the loop reports the earlier requests' events, then that failure, and nothing for the requests after it |
| Runner.NormalFailFast | cmd/main.go:187-209 | in normal mode every event is a shown body except possibly the last, which is then the failure that ended the process |
| Runner.TestingStopsOnlyOnTemplates | cmd/main.go:169-185 | in test mode no body is shown, and the loop ends early only on a request whose templates do not resolve |
| Runner.TestingReportsAll | cmd/main.go:176-185 | in test mode, with a template engine that resolves everything, every request is reported and the loop reaches the end |
| Examples.ResultBindsOk | usecase_test.go:77-84 | on the test document, `result: result` binds `"ok"` and leaves `id` and `item3` alone |
| Examples.IdBindsFirstId | usecase_test.go:89-96 | then `id: data[0].id` binds `1`, and `result` keeps `"ok"` |
| Examples.SingleBinding | usecase.go:243-246 | one binding whose path extracts writes a declared variable, and is refused for an undeclared one |
| Examples.IndexPastEnd | usecase.go:225-228 | `data[5].id` on the test document fails as out of bounds for `data`, length 2 |
| Examples.ExtractPastEnd | usecase.go:225-228 | for any document, `key[i].field` with `i` at or past the end of the array `key` fails as out of bounds, naming `key` and its length |
| Examples.IndexPastEndMessage | usecase.go:227 | that message names the key and the length, not the requested index |
| Examples.IndexIntoString | usecase.go:221-223 | `result[0]` fails because `result` holds the string `"ok"` |
| Examples.UndeclaredTarget | usecase.go:292-296 | binding to an undeclared `token` fails and writes nothing |
| Examples.UndeclaredMessage | usecase.go:295 | that message names the variable and says it "was not defined in the config" |
| Examples.IndexedField | usecase.go:204-240 | `key[i].field`, for a one-digit `i`, selects `field` of element `i` of `key` |
| Examples.LegacyIndexedField | internal/usecase.go:166-201 | a legacy `key[i],field` steps into element `i` of `key`, then binds that element's `field` |
| Examples.LegacyIdBindsFirstId | internal/usecase.go:160-201 | in the legacy dialect, `data[0],id` selects `1` from the test document |
| Examples.TestsCanAllHold | usecase_test.go:11-43 | the four facts assumed about the template engine can all hold together |
| Examples.UndottedEndpointFails | usecase.go:81-84 | with an engine that agrees with the tests, the endpoint `{{ url }}/users` fails materialisation, naming the endpoint and its text |

## Left out

- HTTP transport, setting the headers, the `Delay` sleep and the URL dispatch (`request`, usecase.go:147-168). The exchange is an input (`Exchange`). In the loop, the server is a function of the request's position and its materialised use case.
- `json.Unmarshal` and float64 semantics: responses arrive decoded, with numbers as `real`s. Whether a body decodes is part of the input.
- `html/template` parsing, execution and escaping: `Resolver` is abstract. The only facts stated about it are those `usecase_test.go` asserts (`Template.AgreesWithTests`).
- Legacy.NewApiUseCase: the legacy template helper ends the process (`log.Fatalln`) when a template fails. The model shows this only as `None`, not as a process exit within the loop, because `cmd/main.go` does not use the legacy variant.
- `strings.ToLower` is modelled for ASCII letters only. Unicode case mapping is not modelled.
- `strconv.Atoi`: the quoting of the input in its error text is simplified. Underscores and base prefixes are not relevant, since `Atoi` works in base 10.
- `extractSubstringBetween` is modelled for one-character delimiters, which are the only ones its callers pass. The case in the source where a longer start delimiter overlaps the end delimiter is not modelled.
- Errors.Message: the text of every error is written out, but the `%s` rendering of values other than strings (`ValueText`) is approximate, and no contract is stated about messages in general.
- `prettyJSON` itself is an input (`World.pretty`); what it prints is not modelled.
- `-o` (opening responses in an editor), `-edit`, YAML loading, flag parsing, `os.Stat` and reading the file (cmd/main.go:46-166), and the colours of colors.go.
- Go map iteration order: it is an input (an enumeration of the keys). Contracts that depend on it are stated for every order, or only over the cases that do not depend on it.

## Behaviour worth noting

- The out-of-bounds error names the key and the array's length, not the requested index (usecase.go:227). See `Examples.IndexPastEndMessage`.
- A bare segment that cannot be taken reports "response does not contain <key>", not "key not found" (usecase.go:233-236). The "key not found" text of `getValueForKey` is never shown.
- In normal mode a decode or binding failure does not surface the raw body. `Curl` replaces it with `""` on any error (usecase.go:104-106), so `main` prints an empty string before the error.
- The undeclared-variable message is "var '<k>' was not defined in the config" (usecase.go:295).
