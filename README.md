# Wi-Fi password retriever: a verified model of its parsing and tabulation

The repository has three desktop utilities that recover saved Wi-Fi passwords.

- `wifipass-new.py` is a PySimpleGUI application. Its `WiFiPasswordRetriever` class dispatches on the platform:
  - **Windows:** parses `netsh wlan show profiles` and each profile's `key=clear` output.
  - **macOS:** lists networks with `airport -s`, or with `networksetup` when that fails, then reads each secret through `security find-generic-password`.
  - **Linux:** scans with `iwlist` when there is no NetworkManager directory, and otherwise reads the `ssid=` / `psk=` lines of the NetworkManager keyfiles.

  It then sorts the resulting dictionary, numbers its rows from 1, and builds a text report and clipboard text from those rows.
- `wifipass.py` (a PySimpleGUI table) and `wifipass-tkinter.py` (a tkinter tree view) share one module-level scan. It takes the names between the colons of `netsh wlan show profile`. For each profile it records either an "encrypted" placeholder or the unstripped "Key Content" value. Finally it sorts and numbers the rows; `wifipass.py` also exports them as CSV.

The model keeps the code's own control flow. The collectors' loops are Dafny methods. Each loop is proved equal to a specification function, and the properties are proved as lemmas about those functions. The retriever object is a class whose `passwords` and `pwds` fields are updated by `Retrieve`. Its invariant `Valid()` says that the rows shown are always the sorted, numbered entries of the dictionary.

Every command, path check, directory listing and file read is an input:
- **`Host.Machine`:** holds total functions from argument to output, or to the exception raised. Its `installed` field says which executables are found; `subprocess.check_output` of one that is not raises `FileNotFoundError`, an `OSError` that `except subprocess.SubprocessError` does not catch. Its `str(e)` is `Host.NotFoundReason` on POSIX systems and `Host.WindowsNotFoundReason` for `netsh` on Windows. Outputs are taken to be stable within one scan: a command run twice (such as the detail command of a profile listed under two interfaces) sees the same output both times.
- **`popen`:** the legacy scripts' `os.popen(cmd).read()`, modelled as a function from command string to text. A command that fails does not raise; it only prints less.

A call that may raise returns `Wrappers.Outcome`. `Fail(reason)` is an exception that escapes, and `reason` stands for its `str(e)`.

Python semantics are written out in `PyStr` and `PyList`:
- `str.split(sep)`, `strip` over Python's whitespace set, `lstrip(' ')`, `in` and `str(n)`;
- `sorted` on a dictionary's items, which is code-point order on the unique keys;
- dictionary assignment, where the last write wins.

Where the code and its description differ, the model follows the code:
- The CSV header is `S.No., SSID, Password` in `wifipass-new.py`, but `S.No., SSID, Passwords` in `wifipass.py`.
- A Linux scan line that mentions `ESSID:` without `ESSID:"` (such as `ESSID:off/any`) makes `line.split('ESSID:"')[1]` raise `IndexError`. The `except subprocess.SubprocessError` around it does not catch that error, so it escapes `get_wifi_passwords`. So does the `FileNotFoundError` of a missing `iwlist` or, on Windows, of a missing `netsh`. `Linux.LinuxScanBranch`, `WindowsNetsh.WindowsFailureTiers` and `Retriever.CollectTiers` state exactly when this happens.

## Model

| member | source | states |
|---|---|---|
| PyStr.FindFrom | wifipass-new.py:55 | the first position at or after `from` where `t` occurs; no earlier position holds it; `None` exactly when none does |
| PyStr.Find | wifipass-new.py:55 | `s.find(t)`: the first occurrence of `t`, or `None` |
| PyStr.Contains | wifipass-new.py:55 | `t in s`: `t` occurs somewhere in `s` |
| PyStr.Join | wifipass-new.py:54-56 | `sep.join(parts)`, the inverse `Split` is proved against |
| PyStr.Split | wifipass-new.py:54-56 | `str.split(sep)`: at least one piece; joining the pieces with `sep` gives the text back; no piece holds `sep`; there are two or more pieces exactly when `sep` occurs, so `[1]` raises exactly when it does not |
| PyStr.SplitFirstPiece | wifipass-new.py:164 | piece 0 is the prefix up to the first `sep`, or the whole text |
| PyStr.SplitSecondPiece | wifipass-new.py:56 | piece 1 is the first piece of the text after the first `sep` |
| PyStr.SplitCons | wifipass-new.py:110 | splitting a text whose first line is `a` gives `a`, then the pieces of the rest |
| PyStr.SplitCountsSeparators | wifipass.py:38-41 | splitting on one character gives one more piece than the character's occurrences |
| PyStr.Strip | wifipass-new.py:56 | `strip()`: the result is the slice of the input between its leading and trailing whitespace runs, and it neither starts nor ends with whitespace |
| PyStr.IsSpace | wifipass-new.py:111-112 | the characters `str.isspace()` accepts, over which `strip()` and `split()` work |
| PyStr.StripUnpadded | wifipass-new.py:121 | stripping a string without surrounding whitespace leaves it unchanged |
| PyStr.StripEmptyIffBlank | wifipass-new.py:111 | `line.strip()` is empty exactly when every character is whitespace |
| PyStr.LStrip | wifipass-new.py:112 | `lstrip()`: drops exactly the leading whitespace |
| PyStr.RStrip | wifipass-new.py:112 | `rstrip()`: drops exactly the trailing whitespace |
| PyStr.LStripChar | wifipass.py:36 | `lstrip(' ')`: drops exactly the leading spaces; the result is a suffix that does not start with a space |
| PyStr.FirstWord | wifipass-new.py:112 | `line.strip().split()[0]`: a non-empty prefix of the stripped line without whitespace, ending at whitespace or at the end |
| PyStr.RemoveAll | wifipass-new.py:191 | `replace(pat, '')`: the text is unchanged when `pat` does not occur; otherwise it is shorter by `len(pat)` per occurrence removed |
| PyStr.SplitAtFirst | wifipass-new.py:191 | for a separator that cannot overlap itself, the text before its first occurrence is the first piece and the rest is split on |
| PyStr.RemoveAllFirst | wifipass-new.py:191 | for such a pattern, `replace(pat, '')` keeps the text before the first occurrence and continues after it, so together with the no-occurrence case it determines the result |
| PyStr.RestOfLine | wifipass-new.py:187 | what `(.*)` captures: the longest prefix free of line breaks |
| PyStr.LastIndexOf | wifipass-new.py:133 | the last index of a character, with no later occurrence; `None` exactly when the character is absent |
| PyStr.FirstContaining | wifipass-new.py:79-83 | the first line containing `t`, none before it; `None` exactly when no line contains `t` |
| PyStr.NatToString | wifipass-new.py:230 | `str(i)`: a non-empty string of decimal digits, starting with `0` only for zero |
| PyStr.ParseNatToString | wifipass-new.py:230 | reading `str(n)` back as a decimal gives `n` |
| PyStr.NatToStringInjective | wifipass-new.py:229-230 | different row numbers are different strings |
| PyStr.Repeat | wifipass-new.py:263 | `"=" * 60`: sixty copies of the character |
| PyStr.ConcatLinesSnoc | wifipass-new.py:265-266 | writing one more line appends it and a line break |
| PyStr.SplitConcatLines | wifipass-new.py:259-266 | text written line by line, with no line break inside a line, splits back into those lines and one final empty piece |
| PyStr.SplitConcatBlocks | wifipass-new.py:259-266 | two blocks of lines written one after the other split back into the first block, then the second, then the empty piece |
| PyList.FilterMapAppend | wifipass-new.py:54-57 | the filtered list of a concatenation is the concatenation of the filtered lists, so the order of the lines is kept |
| PyList.FilterMapMembership | wifipass-new.py:54-57 | a value is in the filtered list exactly when some input element yields it |
| PyList.Assigned | wifipass-new.py:180-203 | the keys of a dictionary after in-order assignments are exactly the keys assigned |
| PyList.AssignedLastWins | wifipass-new.py:197 | a key holds the value of its last assignment |
| PyList.FillNonEmpty | wifipass-new.py:60-62 | the per-name loop that skips empty names has exactly the non-empty names as keys |
| PyList.FillNonEmptyStep | wifipass-new.py:60-62 | one more name adds its entry, or is skipped when it is empty |
| Patterns.SearchField | wifipass-new.py:187-189 | `re.search(key + '(.*)')` succeeds exactly when `key` occurs; the capture holds no line break, follows the first occurrence of `key`, and ends at a line break or at the end |
| Patterns.MatchPasswordAt | wifipass-new.py:133 | a match of `password: "(.*)"` at a position is a greedy capture: the prefix, the capture and a closing quote, with no later quote on the line; no match means no prefix there or no quote on the rest of the line |
| Patterns.CutAtLastQuote | wifipass-new.py:133 | cutting the rest of the line at its last quote satisfies the greedy-capture conditions |
| Patterns.FirstPasswordMatch | wifipass-new.py:133 | the leftmost matching position at or after `from`, with no match before it; `None` exactly when no later position matches |
| Patterns.PasswordCaptureLeftmost | wifipass-new.py:133-135 | `re.search` finds nothing exactly when no position matches; otherwise the capture is that of the leftmost match |
| WindowsNetsh.ProfileNameBetweenSeparators | wifipass-new.py:55-56 | a profile line's name is the stripped text after its first `": "`, up to the next `": "` or the end of the line |
| WindowsNetsh.ProfileLineName | wifipass-new.py:54-56 | a line with `": "` and "All User Profile" gives `line.split(': ')[1].strip()`; any other line gives nothing |
| WindowsNetsh.ProfileNames | wifipass-new.py:53-56 | the `ssids` list the listing loop builds |
| WindowsNetsh.ProfileNamesPerLine | wifipass-new.py:53-57 | exactly one name per line holding both `": "` and "All User Profile", placed in line order between the names of the surrounding lines |
| WindowsNetsh.ExtractProfileNames | wifipass-new.py:53-57 | the listing loop builds exactly the profile names of the listing's lines, empty names included |
| WindowsNetsh.IsEnterprise | wifipass-new.py:74 | "Authentication" and "WPA2-Enterprise" both occur in the detail output |
| WindowsNetsh.KeyLineSecret | wifipass-new.py:80-82 | `line.split(': ')[1].strip()`, or the error placeholder of the caught `IndexError` |
| WindowsNetsh.DetailSecret | wifipass-new.py:73-85 | the secret one profile's detail output yields: enterprise placeholder, first key line, or the no-password placeholder |
| WindowsNetsh.EnterpriseWins | wifipass-new.py:74-76 | "Authentication" and "WPA2-Enterprise" anywhere in the detail output give the enterprise placeholder, whatever the Key Content lines say |
| WindowsNetsh.NoKeyLineMeansNoPassword | wifipass-new.py:84-85 | without the enterprise markers and without a "Key Content" line the secret is "No Password or Not Available" |
| WindowsNetsh.FirstKeyLineDecides | wifipass-new.py:79-88 | otherwise the first "Key Content" line decides: its stripped second `": "` piece, or "Error Retrieving Password" when it has no `": "` |
| WindowsNetsh.ReadDetailSecret | wifipass-new.py:73-88 | the enterprise test and the `for ... else` loop compute the secret those three lemmas describe |
| WindowsNetsh.DetailCmd | wifipass-new.py:66-69 | `netsh wlan show profile <arg> key=clear` |
| WindowsNetsh.ProbeDetail | wifipass-new.py:64-69 | the plain-name command, and the quoted-name command when it fails |
| WindowsNetsh.EntrySecret | wifipass-new.py:62-88 | the secret recorded for one name, the error placeholder when both commands fail |
| WindowsNetsh.WindowsPasswords | wifipass-new.py:39-90 | what `_get_windows_wifi_passwords` returns, or the `FileNotFoundError` of a missing `netsh`, whose text is Windows' `[WinError 2] The system cannot find the file specified` |
| WindowsNetsh.LookupSecret | wifipass-new.py:64-88 | the plain-name command, the quoted-name retry when it fails, and the error placeholder when both fail |
| WindowsNetsh.GetWindowsWifiPasswords | wifipass-new.py:40-90 | the collector returns `WindowsPasswords`: the dictionary, or the `FileNotFoundError` that escapes when `netsh` is not found |
| WindowsNetsh.WindowsFailureTiers | wifipass-new.py:40-90 | the collector raises exactly when `netsh` is not found, with the `[WinError 2]` text of its `FileNotFoundError`; a failed listing gives exactly `{"Error": "Unable to retrieve Wi-Fi profiles"}`; otherwise the keys are the non-empty listed names, and a name whose two detail commands both fail gets "Error Retrieving Password" |
| WindowsNetsh.WindowsEntryIsolation | wifipass-new.py:60-88 | an entry depends only on the listing and on its own two detail commands, so one name's failure leaves the other entries unchanged |
| MacOS.HeaderSkipped | wifipass-new.py:110-121 | whatever the header line says, only the lines after the first line break are parsed, by both listing commands |
| MacOS.AirportExe | wifipass-new.py:97-99 | the framework `airport` when that path exists, `/usr/sbin/airport` otherwise |
| MacOS.AirportScan | wifipass-new.py:103-105 | the scan's output, its `SubprocessError`, or the `FileNotFoundError` of a missing executable |
| MacOS.AirportLineName | wifipass-new.py:111-112 | the first word of a non-blank line |
| MacOS.NetworksetupLineName | wifipass-new.py:120-121 | a non-blank line, stripped |
| MacOS.BodyLines | wifipass-new.py:110 | the lines after the header line |
| MacOS.AirportNamesAreWords | wifipass-new.py:110-126 | every name the airport scan lists is a non-empty word without whitespace, so `if not ssid` never skips one |
| MacOS.NetworksetupNamesStripped | wifipass-new.py:119-126 | every preferred network listed is non-empty and has no surrounding whitespace |
| MacOS.ListedNamesNonEmpty | wifipass-new.py:110-126 | whichever command listed them, no listed name is empty |
| MacOS.ListNetworks | wifipass-new.py:96-121 | the names to look up: airport's, or networksetup's when airport fails or is not found; a failing or missing networksetup raises |
| MacOS.ParseAirport | wifipass-new.py:110-113 | the airport loop collects the first word of each non-blank body line, in order |
| MacOS.ParseNetworksetup | wifipass-new.py:119-121 | the networksetup loop collects each stripped non-blank body line, in order |
| MacOS.ListMacNetworks | wifipass-new.py:96-121 | the listing code computes `ListNetworks`: airport first; networksetup only when airport fails or is not found; the networksetup failure escapes the listing |
| MacOS.KeychainSecretOfMatch | wifipass-new.py:133-135 | a successful lookup records the greedy capture of the leftmost `password: "(.*)"` match |
| MacOS.KeychainSecretNoMatch | wifipass-new.py:136-138 | a successful lookup without a match records "Password access requires admin privileges" |
| MacOS.KeychainSecret | wifipass-new.py:128-141 | the secret one lookup's outcome gives: the capture, the no-match placeholder, or the failed-lookup placeholder |
| MacOS.Lookup | wifipass-new.py:128-141 | one lookup's secret, or the `FileNotFoundError` of a missing `security`, which only the outer handler catches |
| MacOS.MacPasswords | wifipass-new.py:92-146 | what `_get_macos_wifi_passwords` returns |
| MacOS.ListedPasswords | wifipass-new.py:124-144 | what the lookup loop leaves in the dictionary for the listed names |
| MacOS.ListedPasswordsTiers | wifipass-new.py:124-144 | for non-empty listed names: a missing `security` leaves only its `"Error"` entry when anything is listed and an empty dictionary otherwise; with `security` found the keys are exactly the listed names and a failed lookup gives the admin placeholder |
| MacOS.LookupListed | wifipass-new.py:124-141 | the lookup loop builds the dictionary `ListedPasswords` of the listed names, stopping with the single `"Error"` entry at the first missing `security` |
| MacOS.LookupSecret | wifipass-new.py:128-141 | one lookup: the capture, the admin-privileges placeholder, "Not Available (Admin privileges required)" when the command fails, or the `FileNotFoundError` of a missing `security` |
| MacOS.GetMacosWifiPasswords | wifipass-new.py:92-146 | the collector returns the dictionary `MacPasswords` of the command outcomes |
| MacOS.MacFailureTiers | wifipass-new.py:92-146 | when the listing raises, the result is the single `"Error"` entry with the exception text; a missing `security` leaves only its `"Error"` entry once anything is listed, and an empty dictionary otherwise; with `security` found every listed name has an entry, and a failed lookup gives that name the admin placeholder |
| MacOS.MacEntryIsolation | wifipass-new.py:124-141 | an entry depends only on the listing, on whether `security` is found and on its own lookup |
| Linux.EssidRaisesIff | wifipass-new.py:163-164 | a scan line raises `IndexError` exactly when it has `ESSID:` but no `ESSID:"` |
| Linux.EssidOfLine | wifipass-new.py:163-166 | what one scan line contributes: nothing, a name, or the `IndexError` |
| Linux.EssidOpenHasMarker | wifipass-new.py:163-164 | a line with `ESSID:"` passes the `ESSID:` test |
| Linux.EssidOfQuotedLine | wifipass-new.py:164-166 | such a line gives the first `"`-piece after its first `ESSID:"`, and nothing when that piece is empty |
| Linux.EssidNameBetweenQuotes | wifipass-new.py:164 | that name has no quote and is the text after `ESSID:"`, up to the next quote, the next `ESSID:"` or the end |
| Linux.QuotePiece | wifipass-new.py:164 | `split('"')[0]` is the quote-free prefix ending at the first quote or at the end |
| Linux.ScanNamesFailIff | wifipass-new.py:162-166 | the scan loop raises exactly when one of its lines does, and always with the `IndexError` |
| Linux.ScanNamesOk | wifipass-new.py:162-166 | when no line raises, the names are those the lines give, in order |
| Linux.ScanLineName | wifipass-new.py:163-166 | the name a scan line adds, when it adds one |
| Linux.ScanNames | wifipass-new.py:161-166 | the names the scan loop collects, or the `IndexError` of its first bad line |
| Linux.ReadScanLine | wifipass-new.py:163-166 | one turn of the scan loop gives what the line contributes, `EssidOfLine`: nothing without `ESSID:`, the non-empty quoted name, or the `IndexError` of a line lacking `ESSID:"` |
| Linux.ParseScan | wifipass-new.py:161-166 | the scan loop returns the names, or the `IndexError` of the first bad line |
| Linux.FillKeyring | wifipass-new.py:168-169 | every scanned name maps to "Password stored in system keyring" |
| Linux.KeyringEntries | wifipass-new.py:168-169 | every scanned name mapped to the keyring placeholder |
| Linux.FieldValue | wifipass-new.py:187-199 | the stripped capture of `key + '(.*)'`, or the fallback |
| Linux.ConnectionName | wifipass-new.py:191 | `file.replace('.nmconnection', '')` |
| Linux.KeyfileEntry | wifipass-new.py:183-202 | the assignment one keyfile makes: `ssid=` value or file name, `psk=` value or placeholder; an unreadable file gives the permission placeholder under its file name |
| Linux.KeyfileWrites | wifipass-new.py:180-202 | the keyfile loop's assignments, in directory order |
| Linux.LinuxPasswords | wifipass-new.py:148-208 | what `_get_linux_wifi_passwords` returns, or the `FileNotFoundError` or `IndexError` that escapes it |
| Linux.FieldValueFromLine | wifipass-new.py:187-199 | a keyfile field is the stripped rest of the line after the key's first occurrence, and the fallback when the key is absent |
| Linux.ConnectionNameFallback | wifipass-new.py:186-203 | the file name with `.nmconnection` removed stands for the network, is never longer than the file name, and is what an unreadable file is filed under, with the permission placeholder |
| Linux.ConnectionNameOfKeyfile | wifipass-new.py:191 | a keyfile named `<name>.nmconnection`, with no suffix inside `<name>`, stands for `<name>` |
| Linux.ReadKeyfiles | wifipass-new.py:180-203 | the keyfile loop leaves the dictionary of its in-order assignments |
| Linux.GetLinuxWifiPasswords | wifipass-new.py:148-208 | the collector returns `LinuxPasswords`: a dictionary, or the `FileNotFoundError` or `IndexError` that escapes it |
| Linux.LinuxScanBranch | wifipass-new.py:153-173 | without the connection directory: a missing `iwlist` makes the collector raise `FileNotFoundError`; a failed scan is the single "try sudo" entry; otherwise the collector raises exactly when a scan line has `ESSID:` without a quote, and else the keys are the scanned names, all mapped to the keyring placeholder |
| Linux.LinuxKeyfileBranch | wifipass-new.py:176-206 | with the directory: a listing failure is the single `"Error"` entry; otherwise the keys are the names the keyfiles give, each holding the entry of the last keyfile that names it |
| Rows.LessIrreflexive | wifipass-new.py:225 | no name sorts before itself |
| Rows.Less | wifipass-new.py:225 | Python's `<` on strings: code-point lexicographic order |
| Rows.LessTransitive | wifipass-new.py:225 | code-point order is transitive |
| Rows.LessTotal | wifipass-new.py:225 | any two different names are ordered |
| Rows.LessAsymmetric | wifipass-new.py:225 | two names are never each before the other |
| Rows.LeastExists | wifipass-new.py:225 | every non-empty set of names has a least element |
| Rows.LeastUnique | wifipass-new.py:225 | the least element is unique |
| Rows.Least | wifipass-new.py:225 | picks the least name of a non-empty set |
| Rows.SortsDictCons | wifipass-new.py:225 | the least pair followed by the sorted rest sorts the whole dictionary |
| Rows.SortedItems | wifipass-new.py:225-226 | `sorted(d.items())`: as many pairs as keys, names strictly ascending, every pair of the dictionary present, nothing else |
| Rows.SortsDict | wifipass-new.py:225 | a list of pairs is `sorted(d.items())`: strictly ascending names, each pair of `d` once |
| Rows.Numbered | wifipass-new.py:229-230 | one three-cell row per pair |
| Rows.NumberedRow | wifipass-new.py:229-230 | row `i` is `[str(i + 1), name, secret]` of the `i`-th pair |
| Rows.NumberedSequence | wifipass-new.py:229-230 | the numbers read back as 1, 2, ..., n down the rows |
| Rows.NumberedCells | wifipass-new.py:229-230 | every row has three cells: the number, the pair's name and its secret |
| Rows.NumberRows | wifipass-new.py:226-230 | copying the pairs into lists and then inserting `str(i)` in front of each, in place, gives the numbered rows |
| Rows.NumberedSorting | wifipass-new.py:225-230 | numbering a sorted dictionary gives as many rows as keys, numbered from 1, with names ascending, each row holding its name's secret, and every key shown |
| Rows.TableShape | wifipass-new.py:225-230 | the table of a dictionary has those properties |
| Rows.Tabulate | wifipass-new.py:225-230 | the sort and the numbering loop build that table |
| Rows.Table | wifipass-new.py:225-230 | the rows the refresh shows for a dictionary |
| Rows.CsvRecords | wifipass-new.py:250-251 | the header row, then the rows |
| Rows.CsvLayout | wifipass-new.py:247-251 | the CSV records are the header, then record `k` is `[str(k), name, secret]` for the `k`-th name in ascending order, one record per entry |
| LegacyNetsh.SegmentBetweenColons | wifipass.py:31 | a line's segment is the text between its first colon and the next colon, or the end of the line |
| LegacyNetsh.SegmentsPerLine | wifipass.py:31 | exactly one segment per line with a colon, whatever else the line says, in line order |
| LegacyNetsh.ColonSegment | wifipass.py:31 | `x.split(':')[1]` of a line with a colon |
| LegacyNetsh.SegmentName | wifipass.py:36 | `ssid.lstrip(' ')` |
| LegacyNetsh.DetailLines | wifipass.py:38-42 | the detail output's lines, from the quoted name when the plain one gives fewer than 3 |
| LegacyNetsh.RetryIffAtMostOneBreak | wifipass.py:38-42 | the quoted name is tried exactly when the first output has at most one line break, that is, fewer than 3 lines |
| LegacyNetsh.EncryptedLineWins | wifipass.py:44-48 | a single line with both "Authentication" and "WPA2-Enterprise" gives "Encrypted - not available", and Key Content is not consulted |
| LegacyNetsh.NoKeyLineNoEntry | wifipass.py:50-54 | with no such line and no "Key Content" line the profile gets no entry at all |
| LegacyNetsh.FirstKeyLineUnstripped | wifipass.py:50-54 | otherwise the first "Key Content" line decides: its unstripped second `": "` piece, or the `IndexError` when it has no `": "` |
| LegacyNetsh.IsEncryptedLine | wifipass.py:45 | one line holds both "Authentication" and "WPA2-Enterprise" |
| LegacyNetsh.KeyVerdict | wifipass.py:50-54 | the first "Key Content" line's unstripped value, its `IndexError`, or no entry |
| LegacyNetsh.DetailVerdict | wifipass.py:44-54 | what one profile's lines record: the encrypted placeholder, the key-line verdict, or nothing |
| LegacyNetsh.FindEncrypted | wifipass.py:44-48 | the first loop sets the flag exactly when some line holds both markers |
| LegacyNetsh.ReadKeyLine | wifipass.py:50-54 | the second loop computes what the first "Key Content" line decides |
| LegacyNetsh.ClassifyDetail | wifipass.py:37-54 | the two loops with their flag and `break`s compute the profile's verdict |
| LegacyNetsh.ReadProfile | wifipass.py:38-54 | one profile: the command, the retry with the quoted name, and the verdict |
| LegacyNetsh.HandleSegment | wifipass.py:35-54 | one turn of the loop: skip an empty segment, otherwise `lstrip(' ')` it and apply its profile's verdict |
| LegacyNetsh.ScanStep | wifipass.py:35-54 | one turn of the loop on the dictionary so far |
| LegacyNetsh.ScanSegments | wifipass.py:33-54 | the loop over the segments: the dictionary, or the first crash |
| LegacyNetsh.LegacyPasswords | wifipass.py:30-54 | what the scan leaves in `pwd`, or the exception that ends the script |
| LegacyNetsh.ScanLoop | wifipass.py:33-54 | the main loop returns the dictionary `pwd`, or the first crash |
| LegacyNetsh.ScanProfiles | wifipass.py:33-54 | the main loop over given segments |
| LegacyNetsh.LegacyScan | wifipass.py:30-54 | the whole scan returns `LegacyPasswords` |
| LegacyNetsh.ScanFailIff | wifipass.py:34-54 | the scan crashes exactly when some non-skipped segment names a profile whose classification crashes |
| LegacyNetsh.ScanEntry | wifipass.py:33-54 | after a completed scan, a name is in `pwd` exactly when some segment names it and its verdict records a value, and it holds that value; a name listed twice keeps its verdict's value |
| LegacyNetsh.ScanCrashFinal | wifipass.py:34-54 | once the loop has crashed, the remaining segments do not change the outcome |
| LegacyNetsh.LegacyTableShape | wifipass.py:56-65 | an empty `pwd` crashes at the `zip`; otherwise one row per entry and every entry has one, numbered from 1, names ascending, each with its secret |
| LegacyNetsh.LegacyTable | wifipass.py:56-65 | the rows, or the `IndexError` of the `zip` on an empty result |
| LegacyCli.BuildRows | wifipass.py:56-65 | the sort, the `zip` that fails on an empty result, and the numbering give the script's rows |
| LegacyCli.AfterScan | wifipass.py:56-65 | a crashed scan stays crashed; otherwise the rows are built |
| LegacyCli.RunScript | wifipass.py:30-65 | the script up to its window: the scan's rows or its crash |
| LegacyCli.CsvExport | wifipass.py:96-102 | the CSV records are the header `S.No., SSID, Passwords`, then `[str(k), name, secret]` for the `k`-th name in ascending order |
| LegacyTk.TreeRows | wifipass-tkinter.py:80-82 | the tree view shows `(str(i + 1), name, secret)` for the `i`-th sorted pair, one row per pair |
| LegacyTk.ShowRows | wifipass-tkinter.py:48-82 | the sort, the `zip` that fails on an empty result, and the tree rows |
| LegacyTk.AfterScan | wifipass-tkinter.py:48-55 | a crashed scan stays crashed; otherwise the rows are shown |
| LegacyTk.RunScript | wifipass-tkinter.py:22-55 | the script up to its window, with the same scan as the table script |
| Retriever.CollectTiers | wifipass-new.py:29-38 | an unsupported platform gives exactly `{"Error": "Unsupported OS: <name>"}`; on Windows an exception escapes exactly when `netsh` is not found, with the `[WinError 2]` text; otherwise one escapes only from the Linux scan branch, with the `FileNotFoundError` of a missing `iwlist` or after a successful scan |
| Retriever.Collect | wifipass-new.py:29-38 | what `get_wifi_passwords` returns for a platform name, or the exception that escapes it |
| Retriever.ReportHeaderText | wifipass-new.py:260-263 | the four header writes produce the title, time-stamp, platform, blank and rule lines |
| Retriever.ReportHeader | wifipass-new.py:260-263 | the title, time-stamp, platform, blank and rule lines |
| Retriever.ReportLine | wifipass-new.py:266 | `"<number>. <name>: <secret>"` |
| Retriever.TxtReport | wifipass-new.py:259-266 | the text `export_to_txt` writes |
| Retriever.ReportLines | wifipass-new.py:265-266 | one report line per row |
| Retriever.ReportLinesAt | wifipass-new.py:266 | report line `k` is `"<number>. <name>: <secret>"` of row `k` |
| Retriever.TxtReportReadBack | wifipass-new.py:256-266 | reading the report back gives the five header lines, then one `"<number>. <name>: <secret>"` line per row in order, then the empty piece after the final line break |
| Retriever.WriteRows | wifipass-new.py:265-266 | the loop appends one report line per row |
| Retriever.WriteReport | wifipass-new.py:259-266 | the writes of `export_to_txt` produce the report text |
| Retriever.PyIndex | wifipass-new.py:283 | `self.pwds[row]` succeeds exactly for `-n <= row < n`, a negative number counting from the end |
| Retriever.ClipTextFailIff | wifipass-new.py:281-284 | the clipboard loop raises exactly when some selected row number is out of range, with `list index out of range` |
| Retriever.ClipLine | wifipass-new.py:284 | `"SSID: <name>, Password: <secret>"` |
| Retriever.ClipText | wifipass-new.py:281-284 | the clipboard text, or the `IndexError` of an out-of-range row number |
| Retriever.ClipLines | wifipass-new.py:282-284 | one clipboard line per selected row |
| Retriever.ClipTextLines | wifipass-new.py:281-284 | with all numbers in range, the text is those lines, each followed by a line break |
| Retriever.ClipLinesAt | wifipass-new.py:282-284 | line `k` is `"SSID: <name>, Password: <secret>"` of the row the `k`-th number picks |
| Retriever.CopyTiers | wifipass-new.py:271-293 | the clipboard is written exactly when something is selected, `pyperclip` imports, every number is in range and the copy succeeds, with status "Copied N entries to clipboard"; a bad number shows `Error copying to clipboard: list index out of range` |
| Retriever.CopyOutcome | wifipass-new.py:271-293 | the status shown and the clipboard text, if any |
| Retriever.CopyRows | wifipass-new.py:271-293 | the body of `copy_to_clipboard` leaves the status and clipboard `CopyOutcome` describes |
| Retriever.WiFiPasswordRetriever.constructor | wifipass-new.py:22-27 | a new retriever has an empty dictionary and no rows, and is valid |
| Retriever.WiFiPasswordRetriever.GetWifiPasswords | wifipass-new.py:29-38 | the dispatch calls the platform's collector |
| Retriever.WiFiPasswordRetriever.Retrieve | wifipass-new.py:221-234 | after a refresh the dictionary is what was collected, the rows are its sorted, numbered table, and the status is "Found N Wi-Fi networks"; an escaping exception leaves both fields unchanged |
| Retriever.WiFiPasswordRetriever.ExportToCsv | wifipass-new.py:244-251 | the records written are the header `S.No., SSID, Password`, then record `k` is `[str(k), name, secret]` for the `k`-th name in ascending order, one record per entry |
| Retriever.WiFiPasswordRetriever.ExportToTxt | wifipass-new.py:256-269 | the text written is the report of the current rows |
| Retriever.WiFiPasswordRetriever.CopyToClipboard | wifipass-new.py:271-293 | the status and clipboard are those of the current rows |

## Left out

- Running commands, `os.path.exists`, `os.listdir`, `open` and `os.popen` are not executed. Their outcomes are the inputs `Host.Machine` and `popen`. `os.path.join` with the connection directory, which ends in `/`, is string concatenation.
- Host.Machine.run and `popen`: decoding a command's output (`universal_newlines=True`, and `os.popen(...).read()` in the legacy scripts) can raise `UnicodeDecodeError`, a `ValueError`. It would escape the Windows collector, the Linux scan and the legacy scripts, and on macOS it would reach the outer `"Error"` entry instead of the `networksetup` fallback. Output that cannot be decoded is not modelled: every output is taken to decode.
- Other start-up errors: `Host.Machine.installed` only tells a found executable from a missing one. An executable that is found but cannot be started raises another `OSError` (such as `PermissionError`), and that is not modelled.
- MacOS.ListMacNetworks falls back to `networksetup` whenever `airport` fails or is not found. The code would send another `OSError` of `airport` straight to the outer `"Error"` entry, and that path is not modelled.
- MacOS.GetMacosWifiPasswords models a failed lookup as the caught `SubprocessError` and a missing `security` as the `FileNotFoundError` that ends the loop. A lookup raising any other exception would in the code also end the loop, with an `"Error"` entry added to the partial dictionary, and that is not modelled.
- Linux.ReadKeyfiles treats every failed read as the `PermissionError`/`IOError` that gives the permission placeholder. A `UnicodeDecodeError` would in the code reach the outer handler and add an `"Error"` entry to the partial dictionary.
- Python's regular-expression engine: only the three fixed patterns are modelled, by hand, in `Patterns`.
- The worker thread of `start_retrieval`, the `retrieving` flag, `scan_count`, the progress bar and the other widget updates. `Retriever.WiFiPasswordRetriever.Retrieve` models what the worker computes and assigns. An exception escaping the collector ends the worker without assigning, and the flag it leaves set is not modelled.
- The PySimpleGUI and tkinter layouts, windows, event loops and file dialogs: `main` in `wifipass-new.py`, the window loop of `wifipass.py` apart from its CSV rows, and the tree-view set-up of `wifipass-tkinter.py` apart from its rows.
- The `csv` module's quoting and line endings, the CSV file name with its time stamp, and the `a+` mode of the legacy export. Only the records written are modelled: `Rows.CsvLayout`, `Retriever.WiFiPasswordRetriever.ExportToCsv` and `LegacyCli.CsvExport`.
- The exports' file-write failures and their `True` / `str(e)` return values. `ExportToTxt` returns the text that would be written.
- `datetime.now()`, `platform.system()` and `platform.release()` are string parameters. `pyperclip`'s import and the exception of `pyperclip.copy` are the parameters `hasPyperclip` and `copyError`.
- `col1max` and `col2max` are computed but never used. Their `max` on an empty result cannot be reached, because the `zip` indexing before them already fails.
- Retriever.ReportLine and Retriever.ClipLine require rows of exactly three cells. The retriever's rows always have three cells (`Valid()`), so the code's `IndexError` for a shorter row cannot arise and is not modelled.
- Retriever.TxtReportReadBack: stated only for names, secrets, time stamp and platform strings without line breaks. A line break inside a cell would split one report line into two when read back, so the line-by-line reading would not hold.
- Newline translation by `universal_newlines=True`: the outputs are taken as text after translation.
