# kaiVen shell core in Dafny

This project models the core of the kaiVen interactive shell (`main.c`) and of its
`suggest` built-in (`ai_module.c`), and proves properties of the model.

- **Tokenizer** (`tokenizer.dfy`): `lsh_split_line` as an imperative method. It
  fills a token array that starts with 64 slots and grows by 64. It is proved
  against a reference function: the tokens are the maximal runs of
  non-delimiters (space, tab, CR, LF, BEL), in order.
- **Launcher** (`launcher.dfy`): the output-redirection scan that `lsh_launch`'s
  child runs over its argument vector. It writes NULL over the first `>` in place.
  Also modelled: what the launch comes to (fork failure, syntax error, open
  failure, or exec of a given vector with a given stdout), and the constant
  status 1.
- **Shell** (`shell.dfy`): the registry (`builtin_str` and `builtin_func`), the
  search loop of `lsh_execute`, the handlers `lsh_cd`, `lsh_help` and `lsh_exit`,
  and `lsh_loop`. The shell is a class whose one field is the working directory.
  The loop runs lines until a handler returns 0, and is proved to execute exactly
  the lines up to and including the first `exit`.
- **Suggest** (`suggest.dfy`): `lsh_suggest`'s guards, the `prompt_len` loop, the
  `strcat` join into a `prompt_len + 1` buffer, the payload sizing with
  `snprintf`, and the report each path produces.
- **ResponseBuffer** (`response_buffer.dfy`): `struct MemoryStruct` and
  `write_memory_callback`, as a class over a byte array that is reallocated and
  appended to.
- **ResponsePath** (`response_path.dfy`): the chain of cJSON lookups
  `candidates[0].content.parts[0].text`, over a JSON datatype whose objects keep
  member order and may repeat keys.

The outside world is passed in as oracle values:
- `chdir`'s outcome;
- whether fork succeeds and whether the redirection target opens;
- `getenv`'s answer;
- the outcome of each allocation;
- whether curl initialises;
- the reply of the transfer.

Diagnostics and printed output are recorded as `Effect` and `Report` values.

A trailing `>` is rejected by the child, after fork, not by the parent
(main.c:94-105): the parent forks first, and the child reports the syntax error
and exits. The model follows this order: `Launcher.LaunchSpec` yields
`RedirectSyntaxError` only after a successful fork, and a failed fork is reported
as `ForkFailed` whatever the words are.

## Model

| member | source | states |
|---|---|---|
| Tokenizer.CText | main.c:178 | the text strtok reads is the longest NUL-free prefix of the line buffer; a NUL-free line is read whole |
| Tokenizer.CTextStopsAtNul | main.c:178 | whatever follows the first NUL of a line is never read |
| Tokenizer.RunEnd | main.c:178-192 | the run starting at i ends at the first delimiter or the end of the line, and contains no delimiter |
| Tokenizer.TokensFrom | main.c:178-193 | every token found from position i lies within the line, at or after i, and is non-empty |
| Tokenizer.TokensAreMaximalRuns | main.c:178-193 | every token is a maximal run of non-delimiters; the tokens are in left-to-right order and do not overlap; every non-delimiter character lies in some token |
| Tokenizer.RunIsWord | main.c:178-192 | the text of a maximal run is non-empty and holds no delimiter |
| Tokenizer.WordsWellFormed | main.c:178-192 | no token is empty and no token contains a delimiter |
| Tokenizer.BlankFromHasNoTokens | main.c:178-179 | when only delimiters follow position i, strtok finds nothing more |
| Tokenizer.NoTokensIffBlank | main.c:178-179 | a line has no tokens exactly when it is empty or made only of delimiters |
| Tokenizer.WordsCons | main.c:178-192 | a word, a delimiter, then a line tokenizes as that word followed by the line's words |
| Tokenizer.WordsSingle | main.c:178-192 | a single word tokenizes as itself |
| Tokenizer.Strtok | main.c:178-192 | one strtok step returns the next token by the reference definition, or NULL exactly when no token remains, and resumes strictly further on |
| Tokenizer.Grow | main.c:183-190 | realloc yields a fresh array of the new size holding every earlier entry |
| Tokenizer.Store | main.c:180-190 | storing token `position` keeps all earlier tokens; the array grows by 64 exactly when it becomes full, so `position < bufsize` holds again |
| Tokenizer.SplitLine | main.c:168-196 | given a C string (no NUL inside), the token array holds exactly the reference tokens in order, followed by the NULL sentinel, at an in-bounds index; the size is a multiple of 64 with fewer than 64 spare slots |
| Launcher.FirstMarker | main.c:100-101 | the index of the first `>`, or the vector's length when there is none |
| Launcher.ParseRedirection | main.c:100-117 | with no `>` the words run unchanged; a plan's argv is a `>`-free prefix of the words; the target is the word right after the first `>` |
| Launcher.RedirectionDropsTail | main.c:100-117 | `pre > target rest` runs `pre` with stdout to `target`, and `rest` is dropped |
| Launcher.TrailingMarkerIsError | main.c:102-105 | a `>` with nothing after it is a syntax error |
| Launcher.ScanRedirection | main.c:100-118 | the scan fails exactly on a syntax error and then leaves the vector alone; otherwise it writes NULL over the first `>` and nothing else, and returns the target |
| Launcher.ArgvUntilNull | main.c:120 | exec receives exactly the words before the vector's NULL |
| Launcher.LaunchSpec | main.c:94-133 | exec is reached exactly when fork succeeds, the redirection parses, and the target (if any) opens |
| Launcher.Launch | main.c:88-134 | the status is always 1 and the outcome is the reference launch; the parent's vector is not changed |
| Shell.NumBuiltins | main.c:35-37 | the name and handler tables have the same number of entries |
| Shell.FindBuiltin | main.c:141-145 | finds nothing exactly when the name is not registered, and otherwise the first entry with that name |
| Shell.Lookup | main.c:21-33 | the handler is absent exactly when the name is not registered, and otherwise is the handler at the first entry with that name |
| Shell.BuiltinStatus | main.c:60-84 | a built-in returns 0 exactly when it is `exit`; `cd`, `help` and `suggest` return 1 |
| Shell.CdSpec | main.c:60-69 | without an operand the directory is unchanged and "missing operand" is reported; with one, a failing chdir keeps the directory and reports chdir's error (perror's errno text), and a successful chdir moves there; the directory changes only through a successful chdir |
| Shell.ExecuteSpec | main.c:136-148 | an empty line yields status 1 and no action; the status is 0 exactly for `exit`; only a successful `cd` moves the directory; an unregistered name is launched |
| Shell.DispatchReturnsHandlerStatus | main.c:141-147 | the dispatcher returns the picked handler's status verbatim, and 1 when no name matches |
| Shell.Shell.RunCd | main.c:60-69 | status 1; the new directory and the effect are those of the reference `cd` |
| Shell.Shell.Execute | main.c:136-148 | the status, the new working directory and the effect are those of the reference dispatcher |
| Shell.Shell.AsArgv | main.c:178-180 | the token pointers, read as C strings, form the NULL-terminated vector of the line's words |
| Shell.Shell.RunLine | main.c:217-219 | splitting the line's C string (cut at its first NUL) then executing it yields status 0 exactly when it is `exit`, with the reference outcome |
| Shell.Shell.Step | main.c:217-222 | running line n extends the effects by that line's effect and leaves the directory the first n+1 lines leave |
| Shell.Shell.Loop | main.c:200-224 | the loop executes exactly the lines up to and including the first `exit` (all lines when there is none); the effects and final directory are those of running those lines in order |
| Shell.StatusZeroIffExit | main.c:219-223 | whatever the directory and world, a line stops the loop exactly when it is an `exit` command |
| Shell.LinesRun | main.c:206-223 | the do-while runs at least one line when there is input, and never more lines than there are |
| Shell.LinesRunSuffix | main.c:206-223 | from line n the loop runs that line, then stops on `exit` or goes on with the rest |
| Shell.LinesRunAt | main.c:206-223 | when line i is the first `exit`, exactly i+1 lines run |
| Shell.LinesRunNone | main.c:206-223 | when no line is `exit`, every line runs |
| Suggest.TemplateLength | ai_module.c:73-74 | strlen of the payload template is 42 |
| Suggest.JoinLength | ai_module.c:43-60 | the joined prompt is one shorter than prompt_len, so prompt_len + 1 bytes hold it, its NUL and one spare byte |
| Suggest.JoinCons | ai_module.c:55-60 | joining a word in front of more words puts exactly one space after it |
| Suggest.JoinEnds | ai_module.c:55-60 | the joined prompt neither starts nor ends with a space |
| Suggest.PromptRetokenizes | ai_module.c:55-60 | splitting the joined prompt gives back exactly the words it was made of: single spaces only |
| Suggest.Strcat | ai_module.c:56-58 | strcat appends the string after the current contents and re-terminates, within the buffer |
| Suggest.PromptLength | ai_module.c:43-46 | prompt_len is the sum over args[1..] of length plus one |
| Suggest.JoinPrompt | ai_module.c:48-60 | the buffer has prompt_len + 1 bytes and holds args[1..] joined by single spaces, NUL-terminated within bounds |
| Suggest.AppendWord | ai_module.c:56-59 | appending word j, and a space when another word follows, extends the prompt by exactly that, NUL-terminated within the buffer |
| Suggest.PartialFits | ai_module.c:48-60 | before each strcat, the text so far plus the next word and its space fit within prompt_len |
| Suggest.Snprintf | ai_module.c:85 | snprintf writes a prefix of the text that fits with its NUL in the capacity: all of it when it fits, else exactly capacity - 1 characters |
| Suggest.PayloadLen | ai_module.c:74 | payload_len exceeds the template's text around a prompt of prompt_len characters, leaving room for the NUL |
| Suggest.PayloadNotTruncated | ai_module.c:73-85 | payload_len always fits the formatted payload, so snprintf never cuts it |
| Suggest.SuggestSpec | ai_module.c:31-134 | no argument or no key stops before any request; a request is sent exactly when every guard and allocation passes; it carries the whole template around the joined prompt; an answer is reported exactly when the reply parses and has the expected layout, and its text is the layout's string; a failed transfer, an unparsable reply and a parsed reply without the layout each give their own error report |
| Suggest.RunSuggest | ai_module.c:31-134 | every path returns status 1, with the reference report |
| ResponsePath.FindMember | ai_module.c:105-110 | the case-sensitive lookup fails exactly when no member has the key, and otherwise returns the value of the first member with it |
| ResponsePath.FindMemberFirst | ai_module.c:105-110 | the member search yields v exactly when v sits at the first member with that key |
| ResponsePath.GetObjectItem | ai_module.c:105-110 | NULL for NULL or a non-object; otherwise the value of the first member with the key, and NULL when no member has it |
| ResponsePath.FirstIfArray | ai_module.c:106-109 | the first item of a non-empty array, and NULL for anything else |
| ResponsePath.Answer | ai_module.c:105-117 | the answer is t exactly when `candidates` is a non-empty array whose first item has `content` with a non-empty `parts` array whose first item's `text` is the string t |
| ResponsePath.NoCandidatesArrayNoAnswer | ai_module.c:105-106 | a missing, non-array or empty `candidates` gives no answer, whatever else the reply holds |
| ResponseBuffer.CString | ai_module.c:101 | a C string read is the bytes before the first NUL, and is undefined exactly when the buffer holds no NUL |
| ResponseBuffer.MemoryStruct.WriteMemoryCallback | ai_module.c:13-29 | on success it returns size*nmemb, the contents grow by the chunk, earlier bytes are kept and the buffer is terminated; on failure it returns 0 and leaves memory and size unchanged |
| ResponseBuffer.MemoryStruct.Malloc | ai_module.c:62-64 | the buffer as written: one byte, size 0, the byte not initialised |
| ResponseBuffer.MemoryStruct.Zeroed | ai_module.c:62-64 | the corrected buffer: one NUL byte, size 0 |
| ResponseBuffer.TerminatedReadsBack | ai_module.c:26 | a terminated buffer whose data holds no NUL reads back as exactly that data |
| ResponseBuffer.ReceiveAsWritten | ai_module.c:62-101 | with the buffer as written, an empty reply is read from the uninitialised byte, and no C string is found there when that byte is not 0; a non-empty NUL-free reply whose allocations all succeed reads back exactly, so the defect is the empty body |
| ResponseBuffer.Receive | ai_module.c:62-101 | with the corrected buffer, a transfer completes whenever every allocation succeeds, and a complete NUL-free reply reads back as exactly the received bytes |

## Left out

- fork, execvp, waitpid and the wait loop (main.c:94-131) are process lifecycle calls. The `System` oracle decides fork's outcome; the model records which vector would be exec'd.
- open, dup2 and close (main.c:107-114) are file-descriptor I/O. The `System` oracle decides whether the target opens.
- The SIGINT handler and the `signal` calls (main.c:40-56, 97, 230) are asynchronous signal delivery.
- lsh_read_line, getcwd and the prompt printing (main.c:152-166, 207-215) are terminal I/O. The input is a sequence of lines, and running out of lines stands for end-of-file.
- The tokenizer's allocation-failure exits (main.c:173-176, 186-189) are not modelled. Allocation always succeeds there.
- Tokenizer.Strtok: strtok writes NUL over the delimiter after each token; the model does not write it. Tokens are spans of the line, and the argument vector holds their text (`Shell.Shell.AsArgv`).
- lsh_read_line's buffer may hold NUL bytes, and every string function stops at the first one. The loop therefore tokenizes `Tokenizer.CText(line)`, the line cut at its first NUL, so every word is NUL-free. `Suggest.Strcat` tracks the current length instead of scanning for the terminator, which agrees with strlen on NUL-free words.
- Characters: C works on bytes and the model on `char`. This changes nothing that is modelled, because every delimiter, `>` and NUL is ASCII.
- Launcher.LaunchSpec: a line that starts with `>` (`> f`) parses as an empty argument vector with target `f` (`Launcher.RedirectionDropsTail` with an empty prefix). The child then truncates `f` and calls execvp with a NULL program name (main.c:107-120). The model records `Exec([], Some(f))`; what execvp does with a NULL name is not modelled.
- ResponseBuffer.ReceiveAsWritten: an empty chunk whose reallocation fails makes the callback return 0, which equals the chunk's length, so the transfer goes on with the buffer as it was: still the uninitialised byte when no chunk has been stored yet. The read-back promise is therefore stated for transfers whose allocations all succeed.
- The `malloc(1)` of the reply buffer (ai_module.c:63) is assumed to succeed, as the code does not check it.
- libcurl (ai_module.c:66-99, 122-127) is network I/O through a library that is not part of this model. This includes URL building into the 512-byte buffer; the `Reply` oracle stands for the transfer's outcome.
- cJSON's parser (ai_module.c:101) is not part of this model. A reply is unparsable or a `Json` value; numbers carry no value because the path never reads one.
- Suggest.SuggestSpec: the prompt is inserted into the JSON payload without escaping, as the code does. The model does not say what the service makes of a prompt holding quotes.
- size_t arithmetic is unbounded in the model, with no wrap-around. Lengths of a command line cannot come near 2^64.
- Shell.Shell.RunCd: chdir's path resolution is the `ChdirReply` oracle, which gives the new directory on success and the strerror text of errno on failure; the `kaiVen: cd: ` prefix perror adds is implied by `CdFailed`.
- Messages printed to stdout or stderr are recorded as `Effect` and `Report` values, not as text.
- pipe.c is a standalone pipe demonstration and is not part of this model.

## Findings

| source | as written | input that shows it | evidently intended | confidence | as-written member | corrected member |
|---|---|---|---|---|---|---|
| ai_module.c:62-64, 101 | `chunk.memory = malloc(1)` is never set to NUL, and `cJSON_Parse(chunk.memory)` reads it as a C string | a transfer that ends with CURLE_OK and an empty body: the callback never runs, and the parser reads an uninitialised byte and whatever follows it | the buffer starts as the empty C string (`memory[0] = 0`) | medium, not executed | ResponseBuffer.ReceiveAsWritten | ResponseBuffer.Receive |
