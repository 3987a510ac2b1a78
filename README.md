# Conversational data collection: a verified model

This project models the deterministic logic around the language-model calls
of a clinical-diary collection tool, and the form builder's field validator.

- **Elicitation** (`generateLlmResponse`): the system prompt, built from the
  data requirements and quoting the completion sentence
  "I have all the information I need. We can finalize now."; the message list
  sent for a turn (system prompt, the history unchanged, then the user's new
  message); and the policy that a failed call is reported as the reply text
  `Error calling OpenAI: <error>` instead of raising.
- **Session** (the `__main__` loop): each turn appends the user entry and the
  assistant entry; the session completes on the first reply that contains the
  sentinel as an exact, case-sensitive substring, and then extraction runs
  once and no further turn is taken.
- **Extraction** (`parse_final_conversation_to_csv`): the parse request
  (the conversation, then the schema instructions as a system message), the
  whitespace strip of the reply, the early returns when the call fails or the
  reply is not JSON, and the row: one entry per field name holding the decoded
  value or `""`, extra keys dropped, and a missing or falsy `date` replaced by
  today's date.
- **Form validator** (`inputIssues`): a missing description and, for a
  `choice` field, an empty value list, each reported as an issue prefixed by
  the field id, in that order.

Every model call is a parameter `call: seq<Message> -> CallResult` that maps
the exact message list sent to the first choice's content (`Answer`) or to the
text of the exception raised (`Failure`). `json.loads` is a parameter
`decode: string -> Option<Json>`, the field-name file is an
`Option<seq<string>>` (None when it cannot be read), today's date is a string
parameter, and the terminal's `input()` is a finite sequence of user inputs.

Files: `wrappers.dfy` (Option), `pystr.dfy` (Python's `in` on strings and
`str.strip()`), `json_values.dfy` (decoded values, truthiness, `dict.get`),
`chat.dfy` (messages and call results), `elicitation.dfy`, `extraction.dfy`,
`session.dfy`, `form_inputs.dfy`.

## Model

| member | source | states |
|---|---|---|
| `PyStr.Occurs` | python/langchain/genericLLMFunction.py:157 | The recursive substring test is true exactly when the needle occurs at some index of the text (Python's `in`). |
| `PyStr.TrimStart` | python/langchain/genericLLMFunction.py:91 | The result is a suffix of the input, everything removed is whitespace, and it does not start with whitespace. |
| `PyStr.TrimEnd` | python/langchain/genericLLMFunction.py:91 | The result is a prefix of the input, everything removed is whitespace, and it does not end with whitespace. |
| `PyStr.Strip` | python/langchain/genericLLMFunction.py:91 | `strip()` returns a contiguous slice of the reply with only whitespace cut on either side, the slice neither starts nor ends with whitespace, and a reply with no surrounding whitespace reaches the decoder unchanged. |
| `PyStr.StripIdempotent` | python/langchain/genericLLMFunction.py:91 | Stripping an already stripped reply changes nothing. |
| `JsonValues.Truthy` | python/langchain/genericLLMFunction.py:126 | A decoded value is truthy exactly when it is none of Python's falsy values: `None`, `False`, zero, `""`, `[]`, `{}`. |
| `JsonValues.GetOrEmpty` | python/langchain/genericLLMFunction.py:123 | `get(key, "")` yields the stored value when the key is present and a falsy `""` otherwise. |
| `Elicitation.SystemPrompt` | python/langchain/genericLLMFunction.py:30-40 | The prompt is the fixed text with the data requirements spliced in right after the opening lines and the sentinel quoted after the instruction to say it; its length is the sum of the parts. |
| `Elicitation.PromptMentionsRequirementsAndSentinel` | python/langchain/genericLLMFunction.py:30-40 | The system prompt contains the data requirements verbatim and the completion sentence verbatim. |
| `Elicitation.TurnMessages` | python/langchain/genericLLMFunction.py:42-45 | The message list has length history + 2: the system prompt first, the history unchanged in the middle, the user's new message last. |
| `Elicitation.Respond` | python/langchain/genericLLMFunction.py:47-57 | A successful call yields the first choice's content; a failed call yields `Error calling OpenAI: ` followed by the error text, never an exception. |
| `Elicitation.GenerateLlmResponse` | python/langchain/genericLLMFunction.py:13-57 | Building the list by append/extend and calling the model once returns exactly the reply of `Respond`. |
| `Elicitation.IsComplete` | python/langchain/genericLLMFunction.py:157 | A reply completes the session exactly when the sentinel occurs in it at some index, matched exactly and case-sensitively. |
| `Elicitation.NearMissDoesNotComplete` | python/langchain/genericLLMFunction.py:157 | Every reply shorter than the sentinel, or of the same length but different, does not complete. |
| `Elicitation.NearMissesDoNotComplete` | python/langchain/genericLLMFunction.py:157 | The sentinel without its final period, or with its first letter lower-cased, does not complete. |
| `Elicitation.FailureCompletesIffErrorTextDoes` | python/langchain/genericLLMFunction.py:56-57 | A failed call's reply contains the sentinel exactly when the error text does; the fixed prefix never produces a match. |
| `Extraction.ParseMessages` | python/langchain/genericLLMFunction.py:79-81 | The parse request is the whole conversation unchanged followed by one system message holding the schema instructions. |
| `Extraction.DateMissing` | python/langchain/genericLLMFunction.py:126 | `not row.get("date")` holds exactly when the row has no `date` key or its value is falsy. |
| `Extraction.Row` | python/langchain/genericLLMFunction.py:120-127 | The row's keys are the field names plus `date`; each field other than `date` holds the decoded value or `""`; `date` keeps a truthy decoded value only when it is a field name, and is today's date otherwise. |
| `Extraction.BuildRow` | python/langchain/genericLLMFunction.py:120-127 | The row-filling loop and the date fill produce exactly `Row`. |
| `Extraction.Extract` | python/langchain/genericLLMFunction.py:79-129 | The attempt fails with the call's error exactly when the call fails; it is a decode failure on the stripped reply exactly when the call succeeds and the reply does not decode; it stops at the field-name file exactly when the reply decodes and the file cannot be read; `.get` raises exactly when the reply decodes to a non-object and there are field names; a written row is `Row` of the decoded object and has exactly the field names as keys; the writer raises only when `date` is not a field name, on the row built from the decoded value. |
| `Extraction.ParseFinalConversation` | python/langchain/genericLLMFunction.py:60-129 | The step-by-step procedure with its early returns yields exactly `Extract`. |
| `Extraction.DatelessSchemaRaises` | python/langchain/genericLLMFunction.py:120-129 | With a decodable object reply and no `date` field name, the row reaches the CSV writer with an extra `date` key and the writer raises. |
| `Extraction.ColumnRow` | python/langchain/genericLLMFunction.py:125-127 | The intended row has exactly the field names as keys, holds the decoded value or `""`, and fills `date` with today only when `date` is a column. |
| `Extraction.ColumnRowMatchesRow` | python/langchain/genericLLMFunction.py:120-127 | When `date` is a field name the intended row equals the row the program builds. |
| `Session.TurnMatchesExtend` | python/langchain/genericLLMFunction.py:153-154 | Appending entries never changes an earlier turn or the history it was answered from. |
| `Session.AppendTurn` | python/langchain/genericLLMFunction.py:153-154 | Appending the user entry and then the assistant entry keeps every earlier turn, adds a turn that matches the input and its reply, and keeps earlier replies non-completing. |
| `Session.RunSession` | python/langchain/genericLLMFunction.py:145-181 | The transcript is user/assistant pairs, the j-th pair being the j-th input and the reply computed from exactly the entries before it; no reply before the last completes; extraction happens, once and on the final transcript, exactly when the last reply contains the sentinel; otherwise every input was consumed. |
| `FormInputs.InputIssues` | client/src/lib/form/inputs.ts:24-39 | At most two issues, each starting with the id; the description issue appears exactly when the description is empty, the enum issue exactly when a choice field has no values, the description issue first; a number field is judged by its description alone; no issue exactly when the description is non-empty and the field is a number or has values. |

## Left out

- The chat-completion calls themselves, their model name, temperature and `max_tokens`: foreign and nondeterministic; each call is the parameter that maps the message list sent to its outcome.
- `json.loads`: a library call; the parameter `decode` gives its outcome. JSON numbers are exact decimals, so a float that Python rounds to zero (such as `1e-400`) counts as truthy here.
- Reading the field-name file: only its outcome is modelled (`None` for any failure); a file that decodes to something other than a list of strings is not.
- Writing the CSV file, and writing the header only when the file is new: file I/O. The model stops at the writer's check that the row has no key outside the field names, the one check of the writer that decides whether a row is written.
- `datetime.date.today()`: the clock; today's date is a string parameter.
- `print` and `input()`: terminal interaction; the inputs are a finite sequence, and running out of them ends the session without extraction, where the program would wait or raise on end of input.
- The order of the row's keys: the CSV writer orders columns by the field names, so the row is a map.
- The literal data requirements and parse instructions written into `__main__`: they are parameters.
- The web routes, the storage backend, the request-header hook and the terminal chat experiment: plumbing outside the collection core.

## Findings

| source | as written | input that shows it | evidently intended | confidence | as-written member | corrected member |
|---|---|---|---|---|---|---|
| python/langchain/genericLLMFunction.py:126-129 | `date` is added to the row even when it is not a field name, and `csv.DictWriter` (which raises on extra keys by default) then refuses the row | field names `["mood"]`, reply `{"mood": "Fine"}` | fill `date` with today only when `date` is a column | medium, not executed | `Extraction.DatelessSchemaRaises` | `Extraction.ColumnRow` |

`Extract`, `ParseFinalConversation` and `RunSession` keep the behaviour as
written, so that the session model matches the program; `ColumnRowMatchesRow`
shows the intended row coincides with the built row whenever `date` is a
field name.
