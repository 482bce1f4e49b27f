# Rasa NLU utilities, modelled in Dafny

A model of the self-contained core of the Rasa NLU utility module
(`rasa/nlu/utils/__init__.py`) with the properties that core promises:

- `list_to_str` (module `StringHelpers`): wraps each string of a list in a quote
  string and joins the wrapped strings with a delimiter. The defaults are `", "` and `"'"`.
- `build_entity` (module `EntityBuilder`): builds an entity record as a
  `map<string, Value>`. The record holds start, end, value and type. It holds
  role and group only when they are non-empty. The caller's extra fields are
  merged in last and win.
- `is_url` (module `UrlPattern`): matches the alternation
  `http://|https://|ftp://|file://|file:\` at the start of a text. It is modelled
  as a leftmost-alternative prefix match.
- `is_model_dir` and `remove_model` (module `ModelDirectory`): `is_model_dir`
  checks the result of a directory walk. The walk must have exactly one entry,
  and every file in it must have an extension in `{.json, .pkl, .dat}`. The
  extension is computed the way `os.path.splitext` does it: from the last `.`,
  a name whose leading characters before that `.` are all dots has no
  extension, and case is significant. `remove_model` is a method of a
  `FileSystem` class. The class keeps, for every existing directory, what
  walking it yields. The method deletes the directory subtree only when
  `is_model_dir` holds; otherwise it returns a `ValueError` and changes nothing.

The directory walk is an input, not a computation. A path that does not exist
yields an empty walk, because the walk swallows listing errors. So
`is_model_dir` returns false for a missing path; it does not raise.

The six entity attribute names come from constants modules that are not part
of this model. They are given their usual literal values, and the proofs rely
only on the six being distinct. In Python, the names start, end, value, role
and group bind to the named parameters of `build_entity`, so with these values
the caller's extra fields can only carry the type key ("entity") among the six.
The model allows an extra field for any key, which covers that case and more.

## Model

| member | source | states |
|---|---|---|
| `StringHelpers.Quoted` | rasa/nlu/utils/__init__.py:32 | one wrapped string per element, in input order, each element between two quotes |
| `StringHelpers.Join` | rasa/nlu/utils/__init__.py:32 | joining no parts gives ""; joining n >= 1 parts gives the parts' total length plus n - 1 delimiters |
| `StringHelpers.ListToStr` | rasa/nlu/utils/__init__.py:31-32 | the empty list gives ""; a one-element list gives quote + element + quote, with no delimiter |
| `StringHelpers.ListToStrLength` | rasa/nlu/utils/__init__.py:32 | for n >= 1 elements the length is the sum of element lengths + 2n·\|quote\| + (n-1)·\|delim\| |
| `StringHelpers.ListToStrAppend` | rasa/nlu/utils/__init__.py:32 | the serialisation of a + b is that of a, one delimiter, then that of b (a, b non-empty) |
| `StringHelpers.ListToStrElementAt` | rasa/nlu/utils/__init__.py:32 | element i appears verbatim between quotes, preceded by the earlier elements and a delimiter and followed by a delimiter and the later elements (input order, no escaping) |
| `StringHelpers.ListToStrNotInjective` | rasa/nlu/utils/__init__.py:32 | elements are not escaped: `["a', 'b"]` and `["a", "b"]` both serialise to `'a', 'b'` |
| `EntityBuilder.BuildEntity` | rasa/nlu/utils/__init__.py:58-97 | the result has exactly the four standard keys, role/group when truthy, and the extra keys; extras win; unoverridden standard keys hold the arguments; role (group) is present iff it is a non-empty string or an extra supplies it |
| `EntityBuilder.EntityIsDetermined` | rasa/nlu/utils/__init__.py:84-96 | the key-by-key contract of BuildEntity fixes the record completely |
| `EntityBuilder.Truthy` | rasa/nlu/utils/__init__.py:91-94 | an optional role or group counts as given iff it is neither None nor the empty string |
| `EntityBuilder.PlainEntity` | rasa/nlu/utils/__init__.py:84-89 | build_entity(0, 5, "Berlin", "city") is exactly {StartKey: 0, EndKey: 5, ValueKey: "Berlin", TypeKey: "city"}, with no RoleKey or GroupKey |
| `EntityBuilder.RoleEntity` | rasa/nlu/utils/__init__.py:91-92 | role "location" is recorded; role "" is omitted like None |
| `UrlPattern.MatchAlternatives` | rasa/nlu/utils/__init__.py:120-121 | an anchored match returns the leftmost alternative that is a prefix of the text, and None only when no alternative is a prefix |
| `UrlPattern.IsUrl` | rasa/nlu/utils/__init__.py:115-121 | is_url holds iff one of the pattern's alternatives is a prefix of the text |
| `UrlPattern.IsUrlIff` | rasa/nlu/utils/__init__.py:115-121 | is_url(s) holds iff s begins with http://, https://, ftp://, file:// or file:\ |
| `UrlPattern.IsUrlAnyTail` | rasa/nlu/utils/__init__.py:121 | the match is anchored at the start only: anything may follow a URL prefix |
| `UrlPattern.IsUrlExamples` | rasa/nlu/utils/__init__.py:115-121 | "https://example.com" and "file:\C:\models" are URLs; "example.com" and "" are not |
| `ModelDirectory.Extension` | rasa/nlu/utils/__init__.py:110 | the extension is empty or a suffix of the name starting with '.' |
| `ModelDirectory.ExtensionSplits` | rasa/nlu/utils/__init__.py:110 | a non-empty extension is a '.' with no further '.', after a stem that is not all dots |
| `ModelDirectory.SplitDeterminesExtension` | rasa/nlu/utils/__init__.py:110 | any such split of a name is the extension the name has |
| `ModelDirectory.ExtensionIff` | rasa/nlu/utils/__init__.py:110 | both directions: a non-empty string is the extension iff it splits the name |
| `ModelDirectory.ExtensionExamples` | rasa/nlu/utils/__init__.py:110 | "a.json" has ".json", "A.JSON" has ".JSON", ".json" has none |
| `ModelDirectory.IsModelDir` | rasa/nlu/utils/__init__.py:100-112 | a qualifying walk has exactly one entry; a single entry without files qualifies |
| `ModelDirectory.IsModelDirIff` | rasa/nlu/utils/__init__.py:100-112 | a walk qualifies iff it has exactly one entry and each of its files splits into a stem and an allowed extension |
| `ModelDirectory.IsModelDirIgnoresChildDirs` | rasa/nlu/utils/__init__.py:107-111 | only the number of walk entries matters, never the child directories listed in the single entry |
| `ModelDirectory.IsModelDirExamples` | rasa/nlu/utils/__init__.py:105-112 | an empty walk (missing path) and a two-entry walk fail; an empty directory and {a.json, b.pkl} qualify; a.txt, .json and A.JSON disqualify |
| `ModelDirectory.RemoveTree` | rasa/nlu/utils/__init__.py:129 | deleting a tree removes the root (trailing separators ignored) and exactly the paths under it, and keeps every other directory unchanged |
| `ModelDirectory.RemoveTreeTrailingSeparator` | rasa/nlu/utils/__init__.py:129 | deleting "m/" deletes the same directories as deleting "m" |
| `ModelDirectory.NotAModelDir` | rasa/nlu/utils/__init__.py:132-135 | the ValueError's message starts "Cannot remove " followed by the refused path |
| `ModelDirectory.FileSystem.WalkOf` | rasa/nlu/utils/__init__.py:106 | a path yields an empty walk iff its directory does not exist; otherwise the walk starts at that directory |
| `ModelDirectory.FileSystem.RemoveModel` | rasa/nlu/utils/__init__.py:124-135 | when is_model_dir holds: returns true and deletes the subtree, after which the path is gone; otherwise: raises ValueError naming the path and the store is unchanged |

## Left out

- `relative_normpath` (lines 24-28): its result depends on the working directory and the platform's path rules.
- `module_path_from_object` (lines 35-37): runtime reflection on Python classes.
- `json_to_string`, `write_json_to_file`, `write_to_file` (lines 40-55): JSON serialisation and file output happen in libraries that are not part of this model.
- The `read_json_file` re-export (line 11): foreign code.
- The directory walk itself and the recursive delete: the walk is an input (`Walk`), and deletion is the removal of a subtree of the abstract `FileSystem`.
- RemoveTree: paths are compared as strings once trailing separators are removed. Other spellings of one directory ("./m", "a/../m", "m//c", symbolic links) are not recognised as aliases, so paths are assumed to be written in normal form.
- `FileSystem`: the store does not tie a parent's walk to its children's walks, so deleting a subtree does not update the walks of the directories above it.
- `RemoveModel`: a failure of the delete itself (permissions, concurrent change) is not modelled. The delete always succeeds once the check passes.
- The time-of-check to time-of-use race in `remove_model`: concurrency is out of scope. Here the check and the delete are one step.
- The regular-expression engine: the pattern is an alternation of literals, so it is replaced by the equivalent prefix match.
- `Extension`: the separator handling of `os.path.splitext` is not modelled. Names from a directory listing never contain the separator.
- The constants modules that define the entity attribute names are not part of this model.
