# Arduino Interface: connection toggle and telemetry line

This project models the core of the Arduino Interface tray utility in Dafny.
The utility lets the user pick a serial port in a small dialog. It then
streams one line of host telemetry to that port every second until the user
deselects the port. All of the behaviour lives in the static members of
`ArduinoInterface.java`. The model covers four parts of it:

- **The port dialog and its connect button** (`connection.dfy`, module
  `Connection`).
  - The class `ArduinoInterface` holds the static state as fields: the
    dialog window, the port list's entries, selection and enabled flag, the
    button label, the tray tooltip, the chosen port and the remembered
    descriptive name.
  - Its methods are the dialog set-up (`selectComPort`, lines 81-102), the
    window-closing listener and the connect button's action listener
    (lines 112-163).
  - Each method is proved to produce the state computed by a pure
    transition function on the datatype `State`. The properties are proved
    as lemmas about those functions.
  - Whether `openPort()` succeeds is a boolean parameter: opening a port
    belongs to the serial library.
  - Starting the publishing thread is recorded as a counter,
    `loopsStarted`.
- **Cutting the device address out of the descriptive port name**
  (`port_name.dfy`, on top of Java's `indexOf` and `substring` in
  `java_string.dfy`). A `substring` that throws becomes a `Failure`.
- **The memory figures**, `bytes * 100 / (int) Math.pow(1024, 3)`
  (`memory.dfy`). This uses Java `long` arithmetic: the product wraps past
  64 bits and the quotient is truncated toward zero.
- **The telemetry line and the publishing loop**.
  - `timestamp.dfy` covers the `HH:mm:ss` timestamp.
  - `decimal.dfy` covers `Integer.toString` for the process count.
  - `telemetry.dfy` covers the info-string concatenation and a reader for
    it.
  - `publishing.dfy` models the loop in the class `Publisher`: it prints
    one line per cycle to the port's writer and never writes a line
    terminator.

Two facts about the code that the model keeps:

- The two memory figures are joined with `" / "`, a slash with a space on
  each side (`ArduinoInterface.java:137`).
- The button handler only toggles on its label (line 113). Nothing rejects
  a request, and nothing waits for the publishing thread to stop.

## Model

| member | source | states |
|---|---|---|
| Connection.Text | src/main/java/wtf/tks/ArduinoInterface.java:113 | the handler's `getText().equals("Select")` test holds exactly for the Select label |
| Connection.TipText | src/main/java/wtf/tks/ArduinoInterface.java:115 | the tooltip text starts with 'C' when connected and with 'D' when disconnected, so the two kinds set at lines 115, 158 and 197 never read alike |
| Connection.TipTextInjective | src/main/java/wtf/tks/ArduinoInterface.java:115 | two tooltips with the same text are the same tooltip, so the tooltip datatype loses nothing of the strings set at lines 115, 158 and 197 |
| Connection.Initial | src/main/java/wtf/tks/ArduinoInterface.java:197 | the start state: tooltip "Disconnected", no chosen port (the static field starts null), enabled list, no window; it satisfies the consistency invariant |
| Connection.DialogOpened | src/main/java/wtf/tks/ArduinoInterface.java:81-102 | showing the dialog keeps the consistency invariant |
| Connection.WindowClosed | src/main/java/wtf/tks/ArduinoInterface.java:166-173 | the closing listener drops the window and keeps the invariant |
| Connection.ItemChosen | src/main/java/wtf/tks/ArduinoInterface.java:99 | picking a list entry, which a disabled list refuses, keeps the invariant |
| Connection.Pressed | src/main/java/wtf/tks/ArduinoInterface.java:112-163 | the button action keeps the invariant (label Deselect exactly when the list is disabled, a disabled list implies a chosen port, a chosen port implies its name is remembered and announced) |
| Connection.PressOutcome | src/main/java/wtf/tks/ArduinoInterface.java:114-118 | the handler throws on the null selection exactly when Select meets an empty selection, and throws `StringIndexOutOfBoundsException` exactly when Select meets a name with no ')' after its first '('; Deselect always completes |
| Connection.Apply | src/main/java/wtf/tks/ArduinoInterface.java:81-173 | every user event keeps the invariant |
| Connection.Run | src/main/java/wtf/tks/ArduinoInterface.java:81-173 | every sequence of user events keeps the invariant |
| Connection.ReachableDeselectHasPort | src/main/java/wtf/tks/ArduinoInterface.java:157-160 | in every state reached from the start, the Deselect label implies a chosen port and a locked list, so `chosenPort.closePort()` never meets null |
| Connection.SuccessfulSelect | src/main/java/wtf/tks/ArduinoInterface.java:113-154 | a Select whose port opens completes, sets tooltip, remembered name and chosen address, relabels Deselect, locks the list and starts one loop, keeping entries and selection |
| Connection.FailedSelect | src/main/java/wtf/tks/ArduinoInterface.java:113-122 | a Select whose open fails completes with the tooltip already "Connected: …" and the chosen port set, yet leaves label and list unchanged and starts no loop |
| Connection.SelectBadName | src/main/java/wtf/tks/ArduinoInterface.java:114-118 | a Select on a name without ')' after the '(' throws at the second `substring`, after the tooltip and remembered name changed, with the chosen port, label, list and loops unchanged |
| Connection.SelectNothing | src/main/java/wtf/tks/ArduinoInterface.java:114 | a Select with nothing selected throws on the null selection and changes nothing |
| Connection.DeselectPressed | src/main/java/wtf/tks/ArduinoInterface.java:157-163 | Deselect happens only with a chosen port; it completes, sets tooltip "Disconnected", clears the port, unlocks the list and relabels Select, keeping the remembered name and everything else |
| Connection.SelectThenDeselect | src/main/java/wtf/tks/ArduinoInterface.java:112-163 | a successful Select followed by any press restores the initial label, tooltip, lock and null port |
| Connection.DialogInit | src/main/java/wtf/tks/ArduinoInterface.java:90-102 | showing the dialog lists the current ports; the label is Deselect iff a port is chosen; then the list is locked with the remembered name selected when listed, otherwise unlocked with the first port selected |
| Connection.DialogAlreadyShown | src/main/java/wtf/tks/ArduinoInterface.java:82 | showing the dialog while it is shown changes nothing |
| Connection.FailedOpenThenReopen | src/main/java/wtf/tks/ArduinoInterface.java:96-122 | after a failed open, closing and reopening the dialog offers Deselect on a locked list although no loop was started |
| Connection.PressedWithAddress | src/main/java/wtf/tks/ArduinoInterface.java:114-124 | the Select branch once the address is cut out, field by field: tooltip, remembered name, chosen address, label, lock and loop count, with window, entries and selection unchanged |
| Connection.ArduinoInterface.constructor | src/main/java/wtf/tks/ArduinoInterface.java:48-53 | the static fields start in the initial state |
| Connection.ArduinoInterface.SelectComPort | src/main/java/wtf/tks/ArduinoInterface.java:81-102 | the method's new state is `DialogOpened` of the old one, and the invariant holds |
| Connection.ArduinoInterface.WindowClosing | src/main/java/wtf/tks/ArduinoInterface.java:166-173 | the new state is `WindowClosed` of the old one |
| Connection.ArduinoInterface.ChooseItem | src/main/java/wtf/tks/ArduinoInterface.java:99 | the new state is `ItemChosen` of the old one |
| Connection.ArduinoInterface.ConnectPressed | src/main/java/wtf/tks/ArduinoInterface.java:112-163 | the listener's new state is `Pressed` of the old one and its outcome (completes, null selection, bad name) is `PressOutcome` of the old one; the invariant holds |
| JavaString.IndexOf | src/main/java/wtf/tks/ArduinoInterface.java:117 | `indexOf` gives -1 exactly when the character is absent, otherwise a position holding it with no earlier occurrence |
| JavaString.SubstringFrom | src/main/java/wtf/tks/ArduinoInterface.java:117 | `substring(begin)` succeeds iff 0 <= begin <= length and then gives the suffix from begin; otherwise it throws |
| JavaString.Substring | src/main/java/wtf/tks/ArduinoInterface.java:118 | `substring(begin, end)` succeeds iff 0 <= begin <= end <= length and then gives the slice; otherwise it throws |
| PortName.ExtractAddress | src/main/java/wtf/tks/ArduinoInterface.java:117-118 | the two `substring` calls succeed iff a ')' follows the first '('; the result is then the text right after that '(' up to the next ')', holding no ')' |
| PortName.ExtractBetweenParens | src/main/java/wtf/tks/ArduinoInterface.java:117-118 | with the first '(' at i and the first later ')' at j, the address is exactly the text strictly between them |
| PortName.ExtractWithoutOpenParen | src/main/java/wtf/tks/ArduinoInterface.java:117-118 | without '(' the address is the prefix before the first ')', and without ')' as well the call throws |
| PortName.ExtractFailsWithoutClosingParen | src/main/java/wtf/tks/ArduinoInterface.java:118 | no ')' after the first '(' makes `substring(0, -1)` throw |
| Decimal.NatToString | src/main/java/wtf/tks/ArduinoInterface.java:144 | a non-negative count renders as a non-empty digit string without a leading zero |
| Decimal.IntToString | src/main/java/wtf/tks/ArduinoInterface.java:144 | `Integer.toString` starts with '-' exactly for a negative count and is digits after that |
| Decimal.ParseNat | src/main/java/wtf/tks/ArduinoInterface.java:144 | the reference reader of decimal digits: defined exactly on non-empty digit strings |
| Decimal.ParseNatToString | src/main/java/wtf/tks/ArduinoInterface.java:144 | reading a rendered count gives the count back |
| Decimal.ParseIntToString | src/main/java/wtf/tks/ArduinoInterface.java:144 | reading `Integer.toString(i)` gives i back, for negative i too |
| Decimal.NatToStringParse | src/main/java/wtf/tks/ArduinoInterface.java:144 | conversely, every digit string without a leading zero is the rendering of its value |
| Memory.GibIsCube | src/main/java/wtf/tks/ArduinoInterface.java:136 | `(int) Math.pow(1024, 3)` is 1073741824, which fits an int, so the cast loses nothing |
| Memory.WrapLong | src/main/java/wtf/tks/ArduinoInterface.java:136 | the long result is in range and congruent to the exact value modulo 2^64, and equal to it when that fits |
| Memory.JavaDiv | src/main/java/wtf/tks/ArduinoInterface.java:136 | long division truncates toward zero: the bounds for non-negative and for negative dividends |
| Memory.CentiGib | src/main/java/wtf/tks/ArduinoInterface.java:136-137 | the figure is a long, and when `bytes * 100` fits it is the hundredths of a GiB rounded down: `c * 2^30 <= bytes * 100 < (c + 1) * 2^30` |
| Memory.UsedCentiGib | src/main/java/wtf/tks/ArduinoInterface.java:136 | the used figure, with the `long` subtraction `totalMem - availMem`, is a long, and with 0 <= available <= total it is the used hundredths of a GiB rounded down |
| Memory.CentiGibMonotone | src/main/java/wtf/tks/ArduinoInterface.java:136-137 | more bytes never give a smaller figure while the product fits |
| Memory.UsedAtMostTotal | src/main/java/wtf/tks/ArduinoInterface.java:134-137 | with 0 <= available <= total the used figure lies between 0 and the total figure |
| Memory.CentiGibOverflows | src/main/java/wtf/tks/ArduinoInterface.java:136 | the figure is non-negative at LONG_MAX / 100 bytes and negative one byte later, where the product wraps; at 2^61 bytes it is -2^33 |
| Timestamp.Format | src/main/java/wtf/tks/ArduinoInterface.java:46 | "HH:mm:ss" has length 8, ':' at 2 and 5, digits elsewhere, and its three fields read back as hour, minute and second |
| Timestamp.Parse | src/main/java/wtf/tks/ArduinoInterface.java:46 | the reference reader of the pattern only yields valid times |
| Timestamp.ParseFormat | src/main/java/wtf/tks/ArduinoInterface.java:46 | parsing a formatted time recovers it |
| Timestamp.FormatParse | src/main/java/wtf/tks/ArduinoInterface.java:46 | every string that parses is the formatting of its time |
| Telemetry.MemoryField | src/main/java/wtf/tks/ArduinoInterface.java:136-137 | the memory text is the used text, then `" / "`, then the total text, each at its fixed place |
| Telemetry.InfoLine | src/main/java/wtf/tks/ArduinoInterface.java:141-144 | the concatenated info string is exactly its nine fields, "4", "TIME:", time, "CPU:", cpu + "%", "MEM:", memory, "Proc:", count, joined by ';' |
| Telemetry.Encode | src/main/java/wtf/tks/ArduinoInterface.java:131-144 | a sample's line is the nine fields of that sample joined by ';' |
| Telemetry.Split | src/main/java/wtf/tks/ArduinoInterface.java:141-144 | the receiver's cut at ';': at least one field, no ';' inside a field, and joining the fields again gives the line |
| Telemetry.SplitJoin | src/main/java/wtf/tks/ArduinoInterface.java:141-144 | splitting undoes joining fields free of ';' |
| Telemetry.SplitEncode | src/main/java/wtf/tks/ArduinoInterface.java:141-144 | a line splits into exactly its nine fields, the first of which, "4", is the number of key/value pairs |
| Telemetry.SplitMemoryField | src/main/java/wtf/tks/ArduinoInterface.java:136-137 | the used and total texts are recovered from the `" / "`-joined memory field |
| Telemetry.Decode | src/main/java/wtf/tks/ArduinoInterface.java:141-144 | the reference reader of a line only yields samples with a valid time |
| Telemetry.DecodeEncode | src/main/java/wtf/tks/ArduinoInterface.java:141-144 | decoding an encoded sample gives the sample back |
| Publishing.Publisher.constructor | src/main/java/wtf/tks/ArduinoInterface.java:129 | a fresh writer has written nothing |
| Publishing.Publisher.Cycle | src/main/java/wtf/tks/ArduinoInterface.java:141-147 | one cycle appends exactly the sample's info string to what was written |
| Publishing.Publisher.Run | src/main/java/wtf/tks/ArduinoInterface.java:130-150 | n cycles append the n lines back to back |
| Publishing.Stream | src/main/java/wtf/tks/ArduinoInterface.java:146-147 | the output is empty exactly when no cycle ran, since every cycle writes a non-empty line |
| Publishing.StreamPrefix | src/main/java/wtf/tks/ArduinoInterface.java:146-147 | later cycles only append: the output of the first i cycles is a prefix of the output of all |
| Publishing.StreamSeparators | src/main/java/wtf/tks/ArduinoInterface.java:141-147 | the output of n cycles carries exactly 8 * n separators |
| Publishing.StreamFields | src/main/java/wtf/tks/ArduinoInterface.java:146 | split on ';', n cycles give 8 * n + 1 fields, and from two cycles on the whole output no longer reads as one line |
| Publishing.FramesMerge | src/main/java/wtf/tks/ArduinoInterface.java:146 | with `print` and no terminator, the first line's count and the second line's "4" arrive as one field of a 17-field split |

## Left out

- The publishing thread, its `sleep(1000)` before and between cycles, its priority, and the stop test `chosenPort != null` read from another thread. `Publisher.Run` takes the samples of however many cycles run. The model has no interleaving, so it does not capture the race where a quick Deselect then Select lets an old loop keep running.
- Serial I/O through jSerialComm: enumerating ports, `getCommPort`, `setComPortTimeouts`, `openPort`, `closePort` and the output stream. The port list is a parameter of `SelectComPort` and the open result is a parameter of `ConnectPressed`. Flushing and closing the writer are not modelled.
- Host sampling through oshi: CPU load, available and total memory, and the process count. They are inputs of the model.
- Formatting through doubles: the CPU percentage `(int)(load * 100 * 100) / 100.00`, and dividing the memory figures by `100.00` before `Double.toString`. `Sample` holds those texts as strings, and `Memory.CentiGib` covers the integer step before that division.
- The Swing and AWT user interface apart from the state the handlers read and write. That covers window geometry, icons, the tray and its menu, the about dialog, look and feel, and `ExtHyperLinkListener.java`. The tray tooltip and the button label are modelled as the datatypes `ToolTip` and `Label`, and `Connection.TipTextInjective` and `Connection.Text` relate them to the strings.
- The single-instance check through a local server socket, image loading, and the `System.out.println` echo of each line: they are I/O with no bearing on the state.
- The clock: `LocalTime.now()` is the `Time` field of each sample.
- The button label before the dialog is first shown: the button does not exist then, and the initial state's label is never read.
- Connection.ItemChosen: models the user's pick as an index into the listed entries. Keyboard navigation and other combo-box behaviour are left out.
