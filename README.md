# FileAgent: Snort rules from threat indicators, in Dafny

FileAgent turns threat indicators into Snort IDS rules and appends them to a rules file.
A payload either names a command (`block_ip`, `block_domain`, `alert_ip`, `block_icmp`) and a
target, or carries an uploaded body in which an IPv4 address, IPv6 address or URL is found.
Before a rule is appended, FileAgent checks the rules file for it and backs the file up. This project models:

- the managers `ManagerSnort`:
  - the five fixed-template builders;
  - `to_hex`;
  - the `rule_translator` command table;
  - the generic `build_snort_rule` assembler;
  - `ip_matches`, `get_ip_from_request`, `rule_exists` and `append_rule`;
- `ManagerFiles`: the backup-directory setup and `file_backup`;
- the older revisions of the same logic: main.py's `FileAgent` and the legacy `ManagerSnort` mixin.

The modules:

- `Text` models Python string operations:
  - `in` on strings, `split`, `join`;
  - `readlines`/`writelines`;
  - the universal-newline reading of a file opened with `"r"`;
  - decimal and hex digits.
- `Py` holds:
  - the Python values a payload carries (None, bool, int, str);
  - `str()`, truthiness and `dict.get`;
  - the outcome of `json.loads`;
  - the exceptions raised along the way, as an `Error` datatype inside a `Result`.
- `Indicators` has:
  - one matcher per pattern of `ip_matches`;
  - `re.search` as a leftmost search;
  - `ip_matches` as a loop over the three patterns.
- `Hex` holds `to_hex` and its inverse.
- `Rules` holds the five builders (methods that grow the rule string append by append) and the translator table.
- `SnortRule` holds `build_snort_rule`. Its header and option lists are built by loops and proved equal to a rendering function. Lemmas about that function cover:
  - the `ValueError` cases;
  - the defaults;
  - one option per list element;
  - the line layout.
- `Store` holds:
  - a disk as a map from paths to text plus a set of directories;
  - the file operations;
  - the backup name (`stem-YYYY-MM-DD_HH-MM-SS.bak`);
  - `rule_exists`;
  - the shared tail of every `append_rule`.

  Store's lemmas prove:
  - the rules file only grows;
  - the backup holds what the rules file read before the append;
  - a duplicate or a missing file changes nothing;
  - appending a rule without a line break twice stores it once, and a rule with a `'\r'`, or a `'\n'` before its last character, is stored every time;
  - all operations keep a directory tree well formed.
- `Requests` holds `get_ip_from_request` and the two IP-alert translators, main.py's and the legacy one.
- `Agents` holds the classes:
  - a `FileSystem` object whose fields the operations update in place;
  - `ManagerFiles`, `ManagerSnort`, `LegacyManagerSnort` and main.py's `FileAgent`.

  Their methods do the source's steps one at a time. Each is proved to leave exactly the outcome the corresponding `Store` function describes.

Where the code and its documentation disagree, the model follows the code. Cases:

- The legacy `append_rule` is not read-only. For a request in which an indicator is found:
  - a non-empty rules file makes it raise TypeError before anything is written;
  - an empty rules file gets backed up, and the text `False` is appended.
- `rule_exists`'s doc comment promises no duplicate entries, but it looks for the rule line by line. A rule holding a `'\r'`, or a `'\n'` before its last character, is never found, so each request appends it again (a single trailing `'\n'` stays on the line `readlines` returns, so that rule is found). Such a rule comes, for example, from a `block_ip` target `"1.2.3.4\nx"` (Agents.LineBreakRuleDuplicates, Store.SplitRuleDuplicated).
- `file_backup`'s doc comment promises unique backup names. Two backups in the same second get the same name, and the second overwrites the first.

## Model

| member | source | states |
|---|---|---|
| Indicators.IpMatches | src/fileagent/managers/manager_snort.py:7-26 | the loop over the IPv4, IPv6 and URL patterns returns the first match of the first pattern that matches anywhere, and None when none does; main.py (lines 96-115) and the legacy mixin (lines 7-26) run the same loop over the same patterns |
| Indicators.Extract | src/fileagent/managers/manager_snort.py:18-26 | the first of the IPv4, IPv6 and URL patterns' leftmost matches, in that order, or None |
| Indicators.PriorityOrder | src/fileagent/managers/manager_snort.py:22-26 | with no IPv4 match the IPv6 match is returned, and with neither address the URL match (or None) |
| Indicators.IPv4Wins | src/fileagent/managers/manager_snort.py:22-25 | an IPv4 match is returned whatever the other two patterns would find |
| Indicators.ExtractNone | src/fileagent/managers/manager_snort.py:22-26 | None is returned exactly when none of the three patterns matches anywhere in the data |
| Indicators.SearchIsLeftmost | src/fileagent/managers/manager_snort.py:23 | `re.search` reports the match at the leftmost start where the pattern matches, and it ends where the matcher says |
| Indicators.ExtractOccurs | src/fileagent/managers/manager_snort.py:25 | the returned indicator is a non-empty substring of the data |
| Indicators.IPv4Exact | src/fileagent/managers/manager_snort.py:18 | the IPv4 pattern matches from i to e exactly when four dot-separated groups of one to three digits lie between word boundaries there |
| Indicators.IPv6Exact | src/fileagent/managers/manager_snort.py:19 | the IPv6 pattern matches from i to e exactly when eight colon-separated groups of one to four hex digits lie between word boundaries there |
| Indicators.UrlShape | src/fileagent/managers/manager_snort.py:20 | a URL match has an `http://` or `https://` scheme at a word boundary, an allowed first host character, one more character that is not a newline, and ends at a word boundary |
| Indicators.DelimitedIPv4 | src/fileagent/managers/manager_snort.py:18 | four dotted digit groups with no word character on either side are matched, whole |
| Indicators.OnlyQuad | src/fileagent/main.py:107-115 | a body that is just a dotted quad of one-to-three-digit groups is returned whole |
| Indicators.NoOctetRangeCheck | src/fileagent/main.py:107 | `999.1.1.1` is returned as an IPv4 address: octet ranges are not checked |
| Hex.ToHex | src/fileagent/managers/manager_snort.py:333-344 | the hex text is empty exactly when the domain is |
| Hex.CodeShape | src/fileagent/managers/manager_snort.py:344 | each character's `:02x` code is at least two lower-case hex digits denoting its code point, and exactly two below 256 |
| Hex.HexSplit | src/fileagent/managers/manager_snort.py:344 | splitting the output on spaces gives back the per-character codes in order |
| Hex.HexRoundTrip | src/fileagent/managers/manager_snort.py:344 | decoding the output of `to_hex` gives back the domain |
| Hex.HexAlphabet | src/fileagent/managers/manager_snort.py:344 | the output holds only hex digits and spaces: no line break, quote or pipe |
| Hex.HexInjective | src/fileagent/managers/manager_snort.py:344 | different domains give different hex texts |
| Rules.Build | src/fileagent/managers/manager_snort.py:75-178 | each builder's rule: its header, `(`, the msg option with `msg` when truthy and the builder's default otherwise, its trailing options and `)`; TypeError for a domain that is not a string |
| Rules.RuleTranslator | src/fileagent/managers/manager_snort.py:48-73 | the builder the `command` names (block_ip, block_domain, alert_ip, block_icmp) applied to `data.get("target")` with no message, None for any other command, or the builder's exception |
| Rules.BuildingRuleBlock | src/fileagent/managers/manager_snort.py:75-91 | the string grown piece by piece is `block http <target> any -> $HOME_NET any (msg:"<text>"; )`, where the text is `msg` when truthy and the default message otherwise |
| Rules.BuildingRuleBlockIcmp | src/fileagent/managers/manager_snort.py:93-111 | the same template with `block icmp` and the icmp default message |
| Rules.BuildingRuleAlertIcmp | src/fileagent/managers/manager_snort.py:113-131 | the same template with `alert icmp` and its default message |
| Rules.BuildingRuleBlockDomain | src/fileagent/managers/manager_snort.py:133-154 | the ssl template toward `$HOME_NET 443` whose content option holds `to_hex(domain)` between bars, or TypeError from `to_hex` when the domain is not a string |
| Rules.BuildingRuleAlert | src/fileagent/managers/manager_snort.py:156-178 | the alert template with the fixed classtype, sid, rev and reference options after the message |
| Rules.ParseBuild | src/fileagent/managers/manager_snort.py:75-178 | every built rule reads back as its header, its message text and its trailing options |
| Rules.MsgOnlyField | src/fileagent/managers/manager_snort.py:84-87 | the message changes only the msg field: a truthy `msg` is the text, None or `""` gives the default |
| Rules.DomainShape | src/fileagent/managers/manager_snort.py:133-154 | the domain rule starts with its fixed header and ends with the content option holding `to_hex(domain)` |
| Rules.DomainRoundTrip | src/fileagent/managers/manager_snort.py:145-151 | reading the content option of a domain rule back gives the domain, whatever the message |
| Rules.DomainNeedsString | src/fileagent/managers/manager_snort.py:133-154 | the domain builder raises exactly when the domain is not a string, and then TypeError |
| Rules.AlertCarriesOptions | src/fileagent/managers/manager_snort.py:165-178 | every alert rule contains the classtype, sid, rev and reference options whatever its message |
| Rules.TranslatorTable | src/fileagent/managers/manager_snort.py:62-73 | no rule exactly when the command has no table entry (`alert_icmp` included); TypeError only for a non-string domain; otherwise the chosen builder's rule with its default message |
| Rules.LineBreakTarget | src/fileagent/managers/manager_snort.py:62-73 | a `block_ip` target holding a `'\n'` or `'\r'` gives a rule that spans lines, the break inside its header |
| SnortRule.Render | src/fileagent/managers/manager_snort.py:180-329 | the header, `" ("`, the options each on an indented line, and `")"`; or the first exception the header or the options raise |
| SnortRule.BuildHeader | src/fileagent/managers/manager_snort.py:229-259 | the header built by the loops, or the ValueError they raise, is the header function's result |
| SnortRule.AppendOpt | src/fileagent/managers/manager_snort.py:264-269 | `opt(name, val)` appends one option per list element, one for any other value but None, none for None |
| SnortRule.AppendReferences | src/fileagent/managers/manager_snort.py:274-276 | one `reference:scheme,id;` option per pair, in order |
| SnortRule.BuildGeneralOpts | src/fileagent/managers/manager_snort.py:271-289 | the msg, reference, gid, sid, rev, classtype, priority, metadata part of the option list |
| SnortRule.AppendMetaExtra | src/fileagent/managers/manager_snort.py:293-295 | each set optional file_meta entry among category, group, version, in that order |
| SnortRule.BuildFileMeta | src/fileagent/managers/manager_snort.py:290-296 | the file_meta option, or KeyError for a missing `type` or `id` |
| SnortRule.AppendModifiers | src/fileagent/managers/manager_snort.py:301-315 | per modifier in order: True appends its name; None, False and 0 append nothing; any other value appends `name value` |
| SnortRule.ContentSegments | src/fileagent/managers/manager_snort.py:300-316 | the joined segments of one content match are its content option |
| SnortRule.AppendContent | src/fileagent/managers/manager_snort.py:298-316 | one option per content match, in order, or KeyError for the first match without a value |
| SnortRule.AppendPatterns | src/fileagent/managers/manager_snort.py:318-323 | one quoted pcre or regex option per pattern, in order |
| SnortRule.AppendJoined | src/fileagent/managers/manager_snort.py:286-287 | the service or flow option joins its list with ',', and TypeError for a non-string element |
| SnortRule.BuildOptions | src/fileagent/managers/manager_snort.py:261-326 | the whole option list is the options function's result, errors included |
| SnortRule.BuildSnortRule | src/fileagent/managers/manager_snort.py:180-329 | `build_snort_rule` returns `header + " (\n    " + join("\n    ", opts) + "\n)"` or the first exception the header or options raise |
| SnortRule.AsStringsExact | src/fileagent/managers/manager_snort.py:259 | `str.join` succeeds exactly when every element is a str, and joins their texts |
| SnortRule.HeaderFields | src/fileagent/managers/manager_snort.py:229-259 | a traditional header splits back into the recognised action, the three source fields, the direction or `->`, and the two destination fields |
| SnortRule.KeywordHeader | src/fileagent/managers/manager_snort.py:243-247 | a service, file or file_id rule never raises, and its header ignores protocol, addresses, ports and direction |
| SnortRule.UnknownActionDropped | src/fileagent/managers/manager_snort.py:230-240 | an action outside the eight recognised ones renders exactly as no action |
| SnortRule.DirectionDefault | src/fileagent/managers/manager_snort.py:253 | a missing direction renders exactly as `->` |
| SnortRule.OptListShape | src/fileagent/managers/manager_snort.py:265-267 | a list-valued option gives one `name:v;` per element, in order |
| SnortRule.RefShape | src/fileagent/managers/manager_snort.py:275-276 | the k-th reference option is `reference:<scheme>,<id>;` of the k-th pair |
| SnortRule.PatternShape | src/fileagent/managers/manager_snort.py:318-323 | the k-th pcre or regex option quotes the k-th pattern |
| SnortRule.ContentValues | src/fileagent/managers/manager_snort.py:299-316 | with all values present, the k-th content option is the k-th match's option |
| SnortRule.OptionErrors | src/fileagent/managers/manager_snort.py:261-326 | the options raise only TypeError or KeyError for `type`, `id` or `value`, never ValueError |
| SnortRule.RenderValueError | src/fileagent/managers/manager_snort.py:243-257 | ValueError exactly for a non-keyword rule with a falsy address field; the source message exactly when one of protocol, src_ip, src_port is falsy |
| SnortRule.LayoutLines | src/fileagent/managers/manager_snort.py:328-329 | read line by line the rule is the header with ` (`, one indented line per option (one blank indented line when there is none), then `)` |
| SnortRule.IntPortRaises | src/fileagent/managers/manager_snort.py:249-259 | with an int port, as the signature types it, a traditional rule raises TypeError at the join |
| SnortRule.HeaderFixedAgrees | src/fileagent/managers/manager_snort.py:229-259 | the header with `str()` applied before joining raises only the ValueErrors and agrees with the written header wherever that succeeds |
| SnortRule.IntPrintable | src/fileagent/managers/manager_snort.py:187-190 | `str()` of an int port is a single word, so the corrected header takes int ports |
| SnortRule.FixedHeaderFields | src/fileagent/managers/manager_snort.py:249-259 | with the correction a traditional header splits back into its fields, int ports included |
| SnortRule.PortsExampleOutcome | src/fileagent/managers/manager_snort.py:186-190 | `tcp any 80 -> any 443` raises TypeError as written but renders with the correction |
| SnortRule.RenderFixedAgrees | src/fileagent/managers/manager_snort.py:180-329 | `build_snort_rule` with the corrected header renders the same text wherever the one as written renders, and fails only where that one fails too |
| SnortRule.PortsRuleOutcome | src/fileagent/managers/manager_snort.py:186-259 | every rule with the `tcp any 80 -> any 443` header raises TypeError as written, and with the correction renders exactly when its options do |
| Requests.GetIpFromRequest | src/fileagent/managers/manager_snort.py:28-46 | the `ip` field of a JSON body, the first indicator of a text body or None, any other content type None; the legacy mixin's copy (same lines) is the same |
| Requests.MainTranslate | src/fileagent/main.py:117-141 | main.py's `rule_translator`: `block <ip>` for a JSON body, the alert line for a text body's indicator or None, UnboundLocalError for any other content type |
| Requests.LegacyTranslate | src/fileagent/manager_snort.py:48-67 | the legacy `rule_translator` as written: None when nothing is found, and otherwise the alert line for `False` |
| Requests.TextRequest | src/fileagent/managers/manager_snort.py:43-44 | a text body never raises; it gives None exactly when no indicator occurs, and otherwise a non-empty substring of the body |
| Requests.JsonRequest | src/fileagent/managers/manager_snort.py:40-42 | a JSON body succeeds exactly when the content is a string holding a JSON object, and then gives its `ip` field (None if absent) |
| Requests.RequestErrors | src/fileagent/manager_snort.py:40-46 | only TypeError, JSON decoding errors and AttributeError are raised, and any other content type gives None |
| Requests.MainJsonAgrees | src/fileagent/main.py:131-133 | a JSON body gives exactly `block ` + `str(ip)` (`block None` when the key is absent), or what decoding raised |
| Requests.MainTextAgrees | src/fileagent/main.py:134-139 | a text body gives None when nothing is found and otherwise the fixed alert line for the indicator |
| Requests.MainOtherUnbound | src/fileagent/main.py:131-141 | any other content type reaches `return rule` unbound: an error, not None |
| Requests.AlertLineInjective | src/fileagent/main.py:139 | different addresses give different alert lines |
| Requests.LegacyIgnoresAddress | src/fileagent/manager_snort.py:62-67 | the legacy translator makes a rule exactly when an address is found, and that rule is always the alert for `False` |
| Requests.LegacyWrongAddress | src/fileagent/manager_snort.py:62-65 | for a text body naming an address other than `False` the legacy rule is not that address's alert; the fixed translator's is |
| Text.ConcatLines | src/fileagent/manager_files.py:53-57 | `writelines(readlines())` gives back the text read: the lines concatenate to it |
| Text.LinesAppend | src/fileagent/managers/manager_snort.py:385-389 | after text that ends a line, the lines of a longer text are the old lines followed by the new ones |
| Text.AnyContainsExtend | src/fileagent/managers/manager_snort.py:385-389 | a rule found on some line is still found after anything is appended |
| Text.UniversalIdempotent | src/fileagent/manager_files.py:53-57 | text read with universal newlines has no carriage return, and reading it again changes nothing |
| Text.UniversalConcat | src/fileagent/manager_files.py:53-54 | universal-newline reading of two texts is their readings joined, unless the first ends in a carriage return |
| Text.SpanningNotFound | src/fileagent/managers/manager_snort.py:385-389 | a needle with a `'\n'` before its last character, or with a `'\r'`, is in no line of text read with universal newlines |
| Store.ReadFile | src/fileagent/manager_files.py:53-54 | reading succeeds exactly for an existing file, gives its text with universal newlines, and otherwise raises one of the missing-path errors |
| Store.MakeDirsValid | src/fileagent/main.py:221 | `mkdir(parents=True, exist_ok=True)` touches no file, keeps the tree well formed, and on success leaves the path a directory |
| Store.MakeDirsIdempotent | src/fileagent/main.py:221 | making the backup directory a second time changes nothing |
| Store.EnsureBackupDirEffect | src/fileagent/manager_files.py:11-13 | the constructor changes no file, leaves something at the backup path unless it raised, and changes nothing when the path exists |
| Store.EnsureBackupDirIdempotent | src/fileagent/manager_files.py:12-13 | running the constructor's directory step again changes nothing |
| Store.StampInjective | src/fileagent/manager_files.py:50 | `%Y-%m-%d_%H-%M-%S` stamps of valid times are equal only for the same second |
| Store.BackupNameInjective | src/fileagent/manager_files.py:48-51 | two backup names of one rules file are equal exactly when taken in the same second |
| Store.StemDropsSuffix | src/fileagent/manager_files.py:50 | `Path.stem` drops the last suffix: `n.ext` gives `n` |
| Store.StemNoDot | src/fileagent/manager_files.py:50 | a name without a dot is its own stem |
| Store.BackupTargetShape | src/fileagent/manager_files.py:48-51 | the backup file lies in the backup directory and is never the rules file |
| Store.AppendExisting | src/fileagent/managers/manager_snort.py:367-368 | opening an existing rules file with `"a"` appends the text at its end and changes nothing else |
| Store.WriteValid | src/fileagent/manager_files.py:56-57 | writing a file keeps the directory tree well formed |
| Store.Backup | src/fileagent/manager_files.py:17-57 | `file_backup`: the read error, or the lines of the rules file written to `backup/<stem>-<stamp>.bak`, or the error opening it |
| Store.BackupMakingDir | src/fileagent/main.py:190-232 | main.py's `file_backup`: `mkdir(parents=True, exist_ok=True)` of the backup directory, then the same copy |
| Store.RuleExists | src/fileagent/managers/manager_snort.py:370-389 | `rule_exists`: some line of the rules file, read with universal newlines, contains the rule; the read error; TypeError for a non-string rule on a non-empty file; main.py (169-188) and the legacy mixin (94-113) are the same |
| Store.AddRule | src/fileagent/managers/manager_snort.py:357-368 | the tail of every `append_rule`: nothing when the rule exists, else the backup, then `f"\n{rule}\n"` appended; the first exception stops it |
| Store.AppendTranslated | src/fileagent/managers/manager_snort.py:346-368 | the managers and main.py `append_rule`: the translation's exception, nothing for None, else the rule added |
| Store.LegacyAppend | src/fileagent/manager_snort.py:69-92 | the legacy `append_rule`: a found rule goes on as the bool `False` |
| Store.BackupEffect | src/fileagent/manager_files.py:33-57 | `file_backup` fails exactly when the rules file cannot be read or the backup cannot be opened; on success it adds one file holding the read text and changes nothing else, and on failure nothing at all; a missing rules file raises FileNotFoundError, as documented, unless a directory has its name (IsADirectoryError) or a file lies on the path above it (NotADirectoryError); an existing rules file gives exactly the error of opening the backup |
| Store.BackupMakingDirEffect | src/fileagent/main.py:206-232 | main.py's `file_backup` on any disk: `mkdir` fails exactly when a file is in the way (FileExistsError when it is the backup directory, else NotADirectoryError) and changes nothing; after it, the copy succeeds exactly when the rules file exists and no directory has the backup's name; a missing rules file raises FileNotFoundError as documented, or IsADirectoryError when a directory has its name |
| Store.BackupReadsBack | src/fileagent/manager_files.py:53-57 | the backup reads back as the rules file read before it, and the rules file is unchanged |
| Store.BackupTwice | src/fileagent/manager_files.py:56-57 | a second backup in the same second overwrites the first with the same text |
| Store.AddRuleEffect | src/fileagent/managers/manager_snort.py:357-368 | with a rule present or the file unreadable nothing changes; otherwise the file grows by exactly `"\n"+rule+"\n"`, the backup holds the earlier read, no other file changes, and the tree stays well formed; the same holds for main.py (lines 154-167), whose backup first makes the backup directory |
| Store.AddRulePresent | src/fileagent/main.py:158-167 | for a rule without a line break: after a successful append, `rule_exists` finds it |
| Store.AddRuleIdempotent | src/fileagent/managers/manager_snort.py:357-368 | for a rule without a line break: appending the same rule again, at any time, changes nothing |
| Store.AddRuleAppends | src/fileagent/managers/manager_snort.py:357-368 | with the backup directory in place, a rule the rules file lacks is backed up and appended, and nothing raises |
| Store.SpanningRuleAppended | src/fileagent/managers/manager_snort.py:370-389 | a rule with a `'\n'` before its last character, or with a `'\r'`, is never found, so every `append_rule` of it appends it again |
| Store.SplitRuleDuplicated | src/fileagent/managers/manager_snort.py:374-378 | contrary to the promise of no duplicate entries, appending a rule that spans lines twice stores it twice, entry after entry |
| Store.AddRuleKeeps | src/fileagent/managers/manager_snort.py:385-389 | a rule the file holds stays found whatever is appended |
| Store.AppendValid | src/fileagent/managers/manager_snort.py:357-368 | every `append_rule`, managers, main.py or legacy, keeps the tree well formed |
| Store.LegacyAppendEffect | src/fileagent/manager_snort.py:80-92 | with a found indicator, a non-empty rules file raises TypeError before any change; an empty one gets `\nFalse\n` if the backup succeeds |
| Agents.FileSystem.ReadLines | src/fileagent/manager_files.py:53-54 | `readlines()` is the lines of the read text, or the reading error |
| Agents.FileSystem.Write | src/fileagent/manager_files.py:56-57 | the in-place write leaves the state the disk function describes |
| Agents.FileSystem.Append | src/fileagent/managers/manager_snort.py:367-368 | the in-place append leaves the state the disk function describes |
| Agents.FileSystem.MakeDirs | src/fileagent/main.py:221 | the in-place mkdir leaves the state and error the disk function describes |
| Agents.FileSystem.constructor | src/fileagent/manager_files.py:11-15 | the object holds the given disk, on which the paths of the agents are looked up |
| Agents.ManagerFiles.constructor | src/fileagent/manager_files.py:7-15 | sets the backup path `directory/backup` and `rules_file = directory/file`, and makes the backup directory only when absent |
| Agents.ManagerFiles.FileBackup | src/fileagent/manager_files.py:46-57 | the steps of `file_backup` leave exactly the backup outcome |
| Agents.ManagerSnort.constructor | src/fileagent/managers/manager_snort.py:5 | the mixin works on the rules file and backup directory of the ManagerFiles it is mixed with |
| Agents.LegacyManagerSnort.constructor | src/fileagent/manager_snort.py:5 | the legacy mixin works on the ManagerFiles it is mixed with |
| Agents.ManagerSnort.AppendRule | src/fileagent/managers/manager_snort.py:346-368 | the steps of `append_rule` leave exactly the append outcome for the translated rule, and a well-formed tree stays well formed |
| Agents.LegacyManagerSnort.AppendRule | src/fileagent/manager_snort.py:69-92 | the legacy steps, with `rule` bound to a bool, leave exactly the legacy append outcome |
| Agents.FileAgent.constructor | src/fileagent/main.py:15-20 | the rules file and the backup directory of main.py's agent lie in `snort/volumes/custom` |
| Agents.FileAgent.FileBackup | src/fileagent/main.py:219-232 | main.py's `file_backup` makes the directory, then copies the lines |
| Agents.FileAgent.AppendRule | src/fileagent/main.py:143-167 | main.py's `append_rule` leaves exactly the append outcome for main.py's translation |
| Agents.LegacyFixedStoresAlert | src/fileagent/manager_snort.py:62-92 | with the managers version's parentheses, and for an alert line without a line break, the legacy agent would store the alert for the found address |
| Agents.LineBreakRuleDuplicates | src/fileagent/managers/manager_snort.py:346-389 | a `block_ip` payload whose target holds a `'\n'` or `'\r'` is appended whatever the rules file holds, the same rule included |

## Left out

- The FastAPI routes, uploads and HTTP status mapping (main.py's routes, `manager_api.py`, `apiclass.py`) are transport. Only their effect is kept: a parsed dict reaches `rule_translator`, or a request dict reaches `get_ip_from_request`.
- argparse and uvicorn start-up. `self.directory` and `args.file` are constructor parameters, and the file name is a single path component.
- `get_parent`: it depends on call-stack introspection.
- `print` and the `verbose` output of the builders.
- `datetime.now()`: the time is a parameter.
- Store.StampInjective and Store.BackupNameInjective: only years 1000 to 9999 are covered, because the padding `%Y` gives earlier years depends on the platform.
- `json.loads` is a parameter, `decoded`: its outcome (malformed, not an object, or an object). JSON floats, lists and nested objects are not values of the model.
- The file system is a map from paths to text plus a set of directories. Not modelled:
  - permissions, full disks and symbolic links;
  - text encodings and decoding errors;
  - errors other than the missing-path ones.

  Writing assumes POSIX newline handling: `"\n"` is written as is.
- The class that mixes the managers `ManagerSnort` with `ManagerFiles` is not part of this model. The mixin is modelled as composition: a `ManagerSnort` holds its `ManagerFiles`. The legacy mixin calls a `file_backup` it does not define; the model assumes `ManagerFiles`'.
- Agents.ManagerFiles.constructor: a raising `__init__` produces no object in Python. Here the constructor records the exception in `initRaised`.
- The `build_snort_rule` parameters its body never reads do not appear in the model: `bufferlen`, `isdataat`, `dsize`, `ttl`, `ipopts`, `fragoffset`, `fragbits`, `priority_bit`, `dce`, `ssl_state`.
- The regex engine is not modelled in general; only the three patterns are. Their `\d` and `\w` are ASCII, and `\s` is Python's whitespace set. Non-ASCII digits and letters are not modelled.
- Store.AddRulePresent: holds only for a rule with no `'\n'` or `'\r'`. Such breaks are reachable: a `block_ip` target may hold one, and the URL pattern's `.` accepts `'\r'`. For a rule with a `'\r'`, or a `'\n'` before its last character, the source does duplicate entries, and Store.SpanningRuleAppended and Agents.LineBreakRuleDuplicates state it.
- Store.AddRuleIdempotent: holds only for a rule with no line break, for the reason above; a rule with a `'\r'`, or a `'\n'` before its last character, is appended again.
- Agents.LegacyFixedStoresAlert: holds only for an alert line with no line break; a URL match holding `'\r'` gives one that is stored again on every request.
- SnortRule.OptionErrors: "never ValueError" relies on `reference` being a list of pairs, as its type hint says; an element that is not a pair raises ValueError while being unpacked at line 275, which the model's argument type excludes.
- SnortRule.LayoutLines: assumes the header and options hold no `'\n'`. A value containing one breaks the layout, and that case is not described.
- Concurrent submissions racing between `rule_exists` and the append: the store is modelled sequentially.
- `tests/manual/test_agent.py` and `example/example.py`: a client script and an example built on a class that is not part of this model.

## Findings

| source | as written | input that shows it | evidently intended | confidence | as-written member | corrected member |
|---|---|---|---|---|---|---|
| src/fileagent/managers/manager_snort.py:259 | `" ".join(parts)` joins the header fields as they are, while the signature types `src_port` and `dst_port` as `int` (lines 187, 190) | `build_snort_rule(rule_type="traditional", protocol="tcp", src_ip="any", src_port=80, dst_ip="any", dst_port=443)` raises TypeError | format every field with `str()` before joining | not executed | SnortRule.IntPortRaises | SnortRule.HeaderFixedAgrees, SnortRule.RenderFixedAgrees |
| src/fileagent/manager_snort.py:62 | `if ip := self.get_ip_from_request(data) is None` binds `ip` to a bool | `{"content_type": "text/plain", "content": "10.0.0.1"}` gives a rule for `alert ip False any -> ...` | `(ip := self.get_ip_from_request(data)) is None`, as the managers version writes its test at line 357 | not executed | Requests.LegacyWrongAddress | Agents.LegacyFixedStoresAlert |
| src/fileagent/manager_snort.py:80 | `if rule := self.rule_translator(data) is None` binds `rule` to a bool, so `rule_exists(False)` runs | any request with an indicator: TypeError on a non-empty rules file, `\nFalse\n` appended to an empty one | `(rule := self.rule_translator(data)) is None` | not executed | Store.LegacyAppendEffect | Store.AddRulePresent |
