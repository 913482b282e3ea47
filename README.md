# Tag plugin core: pager, page length and tag-group listing

This project models the logic of the OMERO command-line tag plugin
(`plugins/tag.py`) that can be stated without the remote server:

- `pagetext`, the terminal pager. It walks a list of lines and stops at
  every index that is a positive multiple of `num_lines` to ask the user
  whether to go on. An answer of `q` or `Q` ends the walk.
- `determine_pagination`, which picks the page length.
- The two accumulation loops of `TagControl.list_groups`. The first folds
  the (parent id, child id) pairs of the tag-set links into a set of child
  ids and a dictionary from parent id to its list of children. The second
  turns each six-field tag result into a five-field tag row and fills a
  dictionary from owner id to the owner's full name.

The remote query results and the keyboard answers are given as plain
sequences. What `print` writes is returned as a sequence.

Modules:

- `Text` (`text.dfy`): Python 2 `str.lower()` in the default "C" locale and the pager's quit test.
- `Arith` (`arith.dfy`): multiplication and remainder facts used by the pager proofs.
- `Pager` (`pager.dfy`): `pagetext` as written (`PageText`, specified by the
  closed form `Paged`), the corrected pager (`PageTextFixed`, specified by
  `PagedFixed`), and `determine_pagination`.
- `TagGroups` (`tag_groups.dfy`): the grouping loop (`GroupChildren`), the
  tag-row loop (`BuildTags`) and both in sequence (`ListGroups`).

Modelling choices:

- `num_lines` is any integer. Python's `%` takes the sign of the divisor
  (`PyMod`), so a negative `num_lines` prompts at the multiples of its
  absolute value. A `num_lines` of 0 raises ZeroDivisionError at the first
  line, and does nothing when there are no lines (`Stop.ZeroDivision`).
- `raw_input` with no answer left raises EOFError after showing the prompt
  (`Stop.EndOfInput`).
- `input.lower()` on a Python 2 byte string follows the C library's
  locale. The model's `Lower` changes only the ASCII letters A-Z, which is
  exact in the default "C" locale. The quit answers are exactly `q` and `Q`
  (`Text.QuitAnswers`); in other single-byte locales still only `Q` lowers
  to `q`.
- `mapping.get(tag_id) or 0` is modelled literally: a missing key, an absent
  tag id and an empty list all give 0 (`ChildFieldOf`). `ListGroups` shows
  that with the lists of the grouping loop this means "the child list iff
  the tag is a parent".
- `"%s %s" % (first, last)` renders an absent name as `None` (`OwnerName`).
- `list_groups` builds `tags` and `owners` and then drops them. The model
  returns them so that their contents can be stated.

Two behaviours of the code as written:

- `pagetext` prints only the lines at prompt indices (see Findings).
- `determine_pagination`'s platform branches are empty, so it always
  returns 25.

## Model

| member | source | states |
|---|---|---|
| `Pager.PageText` | plugins/tag.py:29-36 | the pager loop with its prompt, `break` and print returns exactly the closed form `Paged`: which line indices are printed, how many prompts are shown, and whether the walk completed, quit, ran out of answers or divided by zero |
| `Pager.PyMod` | plugins/tag.py:31 | Python's `%` has the sign of the divisor and lies strictly inside it, and it is zero exactly when the divisor's absolute value divides the index |
| `Pager.PromptCountBound` | plugins/tag.py:30-31 | the k-th prompt index `k*abs(num_lines)` lies below the number of lines iff k is at most `PromptCount`, so `PromptCount` is the number of positive multiples below the length |
| `Pager.PromptIndicesExact` | plugins/tag.py:31 | an index below the length is a prompt index (`index % num_lines == 0 and index`) iff it is one of the first `PromptCount` positive multiples of `abs(num_lines)`; index 0 never prompts |
| `Pager.Continues` | plugins/tag.py:32-34 | the number of prompts passed is bounded by the prompts that exist and by the answers given, every answer before it is not a quit, and it stops at the first quit answer |
| `Text.QuitAnswers` | plugins/tag.py:33 | `input.lower() == 'q'` holds exactly for the answers `q` and `Q` |
| `Pager.PagedPrintsPromptLines` | plugins/tag.py:30-36 | every printed line sits at a prompt index below the length, is printed in input order with strictly increasing indices (so never twice), follows an answer that was not a quit, and prompts never exceed the prompt indices below the length |
| `Pager.PagedQuitStops` | plugins/tag.py:32-34 | a quit answer at the (k+1)-th prompt means at most k+1 prompts, at most k printed lines, no printed line at or after that prompt's index, and a Quit outcome when that prompt is reached |
| `Pager.PagedNeverQuitting` | plugins/tag.py:31-36 | when no prompt is answered with quit the walk completes with one prompt per prompt index, and a line is printed iff its index is a prompt index |
| `Pager.PagedSkipsLines` | plugins/tag.py:29-36 | two lines at the default page length of 25 produce no output and no prompt |
| `Pager.PageTextFixed` | plugins/tag.py:29-36 | the corrected pager loop, with the print taken out of the prompt's `if`, returns exactly the closed form `PagedFixed` |
| `Pager.PagedFixedPrefix` | plugins/tag.py:29-36 | the corrected pager prints a prefix of the lines in order; it prints all of them iff the walk completed; after a quit the output has exactly `prompts * abs(num_lines)` lines, ending just before the quit prompt's line |
| `Pager.PagedFixedPrintsAll` | plugins/tag.py:29-36 | the corrected pager prints every line when no prompt is answered with quit |
| `Pager.DeterminePagination` | plugins/tag.py:38-60 | the page length is 25, the default, for every platform name |
| `TagGroups.GroupChildren` | plugins/tag.py:104-110 | after the loop `children` is the set of all child ids, the keys of `mapping` are exactly the parent ids, and each parent's list is its children from the pairs in input order |
| `TagGroups.ChildrenOfNonEmpty` | plugins/tag.py:110 | a parent's child list is non-empty iff the parent occurs in some pair |
| `TagGroups.ChildrenOfMultiplicity` | plugins/tag.py:110 | a child occurs in its parent's list as many times as the pair occurs in the input, so duplicates are kept |
| `TagGroups.ParentsOnce` | plugins/tag.py:105-110 | the parents in order of first appearance list each parent id exactly once and nothing else |
| `TagGroups.ChildCountTotal` | plugins/tag.py:104-110 | summed over all parents, the child list lengths equal the number of pairs |
| `TagGroups.BuildTags` | plugins/tag.py:118-130 | one row per result in input order carrying the id, description, text and owner unchanged (absent stays absent) and `mapping.get(tag_id) or 0` as fifth field; `owners` has exactly the results' owner ids as keys and maps each to the name from the last result with that owner |
| `TagGroups.ListGroups` | plugins/tag.py:104-130 | with the mapping built by the first loop, a row's fifth field is the tag's child list when the tag id is a parent in some pair and 0 otherwise; rows and owners as in `BuildTags` |

## Findings

| source | as written | input that shows it | evidently intended | confidence | as-written member | corrected member |
|---|---|---|---|---|---|---|
| plugins/tag.py:31-36 | `print line` is in the `else` of the quit test, inside the prompt's `if`, so only lines at prompt indices are printed | `pagetext(["first", "second"])` with the default 25 prints nothing | print every line and prompt after every `num_lines` lines | high; not executed | `Pager.PagedSkipsLines` (two-line example), `Pager.PagedNeverQuitting` (all inputs) | `Pager.PagedFixedPrintsAll` |

## Left out

- The OMERO client, session, query service and metadata service calls, the HQL strings and the query parameters, including the `--admin` group override (plugins/tag.py:87-102, 106, 112-120): remote I/O through a third-party client. Their results are input sequences, and `getValue()` is the identity.
- `raw_input` and `print` as real terminal I/O (plugins/tag.py:32, 36): answers are a sequence consumed in order and output is a returned sequence. The prompt text is not modelled, only the number of prompts.
- Platform detection and the error message in `determine_pagination` (plugins/tag.py:46-58): both branch bodies hold only a comment, so the code as written does not even parse, and `sys` is never imported. The model treats the branches as empty.
- `list_groups_md` (plugins/tag.py:132-138): one remote call and one `print` per record, with no logic of its own.
- `_configure`, `add_standard_params` and plugin registration (plugins/tag.py:66-84, 141-147): command-line wiring of the host framework.
- `taggart.py` is not part of this model: it is connection plumbing around an external ontology parser and calls names that are never defined.
- Ids in the first query's pairs are plain integers. A null id would make `getValue()` raise AttributeError at plugins/tag.py:107-108; link ids are never null.
- Interrupts (Ctrl-C at a prompt) are not modelled.
