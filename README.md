# Greeting catalogue of greetings-api

This project models the greeting catalogue of the greetings-api HTTP service (`main.go`).
The catalogue is a read-only list of `(Language, Greeting)` records. `SelectGreeting` picks one record for a key:
- an empty catalogue is an error for every key;
- the key `"random"` returns the record at a randomly drawn index;
- any other key returns the first record whose language equals the key;
- no match is an error that names the key.

`FormatResponse` wraps the selected greeting text as `{"greeting":"<text>"}`.

Files:
- `wrappers.dfy`: the `Option` and `Result` datatypes used for Go's `(value, error)` returns.
- `greetings.dfy`: module `Greetings`, covering the record type, the errors and their messages, the selection (as a function `Select` and as a method `SelectGreeting` with the source's loop), a filter-based reference definition, and the response format with its inverse `ParseResponse`.

The index that `rand.Intn(len(greetings))` returns is the parameter `draw`. Callers must supply `draw < |greetings|` only when the random branch is taken, because that is the range `rand.Intn` guarantees.

The catalogue is a Dafny sequence value. So "SelectGreeting does not modify the catalogue" holds by construction and needs no lemma.

## Model

| member | source | states |
|---|---|---|
| `Greetings.Select` | main.go:95-113 | The empty check comes first: the catalogue is empty iff the result is "no greetings available", for every key including "random". On a non-empty catalogue, "random" returns the drawn record and never fails. Any other key succeeds iff some record has that language, and it then returns the record at the smallest such index. Otherwise the error names the key. Every successful result is a member of the catalogue. |
| `Greetings.SelectGreeting` | main.go:95-113 | The early-returning `for ... range` loop runs the same checks in the same order and returns exactly what `Select` specifies. |
| `Greetings.FirstMatch` | main.go:106-110 | The search returns an index whose record has the key as its language, with no earlier record matching. It returns nothing iff no record matches. |
| `Greetings.FirstMatchIsHeadOfMatching` | main.go:106-110 | The linear search agrees with an independent filter: it finds nothing iff the filtered list is empty, and otherwise it finds the filtered list's first element. |
| `Greetings.SelectByLanguageIsFirstOfMatching` | main.go:95-113 | For a key other than "random", selection returns an empty-catalogue error, a not-found error when no record matches, or else the first record of the filtered catalogue. |
| `Greetings.SelectByLanguageIgnoresDraw` | main.go:100-112 | For a key other than "random", the result does not depend on the random draw. |
| `Greetings.RandomLanguageRecordOnlyByDraw` | main.go:100-110 | A record whose language is literally "random" is never reached by the search. For every key, it is returned iff the key is "random" and it is the drawn record. |
| `Greetings.Message` | main.go:97-112 | The text `err.Error()` yields. It is the fixed "no greetings available" for an empty catalogue. The not-found message ends with the key copied verbatim between single quotes. |
| `Greetings.MessageInjective` | main.go:97-112 | The two error texts never coincide, and the not-found text identifies the missing language (a consequence of the `Message` contract). |
| `Greetings.FormatResponse` | main.go:91-93 | The response is 15 characters longer than the greeting text. Parsing it recovers that text verbatim, with no escaping. |
| `Greetings.ParseThenFormat` | main.go:91-93 | Every string of the form prefix + text + suffix is the response for a record with that greeting text, whatever its language. |
| `Greetings.FormatResponseInjective` | main.go:91-93 | Two records give the same response iff their greeting texts are equal. The language is not part of the response. |

## Left out

- `main()` (main.go:24-89) is not modelled. It covers process start-up, decoding the embedded `greetings.json`, `gorilla/mux` routing, the CORS allow-list and `http.ListenAndServe`, which are all I/O and third-party libraries. The route handlers call `http.Error` on a selection failure and then still call `FormatResponse` with a nil record (main.go:44-47, main.go:58-61). That is a nil dereference in the routing layer. Here `FormatResponse` takes a `Greeting` value, so a nil record cannot be passed.
- Catalogue entries are values, not `*Greeting` pointers. A `null` entry in the decoded JSON, which would make the search dereference nil, and aliasing between the returned pointer and the catalogue are not modelled.
- Go strings are byte strings, but the model's strings are sequences of Unicode characters. For valid UTF-8 the equality tests and the "+15" length carry over. A key taken from the request path can hold invalid UTF-8 (for example `%FF`), which the model cannot represent. Go returns the not-found error carrying those raw bytes.
- The uniform distribution of `rand.Intn` (main.go:102) is not modelled. It becomes the caller-supplied index `draw`, and only its range is stated.
- The text of `greetings.json` is not modelled.
- measurements.go and database.go are not part of this model. Their insert, latest-5 ordering and 50-row average are computed by SQLite from SQL text over `float64` values, and their handlers are HTTP and file I/O.
- measurements_test.go is not part of this model. It exercises that SQL-backed behaviour.
