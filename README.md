# UAMUD server core in Dafny

This project models the core of the UAMUD text-adventure server: the
server's Java `Server` class with its `ClientHandler` sessions, its
`ClientCommand` and `ServerCommand` tables, its timer tasks, and a few small
helpers from `library/` and the Swing client. The model then proves what
that code does.

The world is one value, `World.World`. It holds:

- the sessions, one per `ClientHandler` object, with the user, character,
  online flag, trade fields and socket address of each;
- the `clients` map as a registry sequence, in one fixed iteration order;
- the database tables the handlers read and write, as maps: users,
  characters, rooms, items, inventories (multisets), equipment,
  merchants and their stock, mob species and mob instances;
- the `npcUIDs` list;
- every message written to a client stream so far (the outbox);
- the activity log.

Each handler is a function from a world to a `Run` or `Step`. A `Run` is
the new world and whether the handler threw. A `Step` also names the
command the handler re-dispatches afterwards (`look`, or `inventory` for
some clients). Wherever the Java code would throw (a null character, a
missing row parsed as a number, an index past the end of a list), the
model returns `crashed: true` and keeps the state changed so far. A throw
inside the client's read loop ends that session's thread: the session is
marked not alive, stays registered, and reads nothing more.

The parts of the source that work by changing state step by step are
imperative Dafny:

- `Host.Server` holds the world in a field. Its methods run the server's
  loops: the command lookup and argument loops, the client scans, the
  level sum, the accept loop, the spawner's `while`, the mover's `for`,
  the shutdown countdown with its disconnect snapshot, and the console
  loop. Each is proved equal to the pure function that specifies it.
- `Records.DatabaseObject` is a class over its parameter map.
- `NumberDocuments.NumberDocument` is a class over its text, with the
  insert loop over a `digits` array.
- `ClientGui.ClientView` is a class over the client's style fields and
  history.

Randomness, the database's values (damage, defense, maximum hit points)
and the times at which tasks run are parameters: an `Env` for a command,
a `SpawnDraw` or `MoveDraw` for each pass of the spawner or mover, and a
coin function for the mob's random target. Each is constrained to the
range the code draws from.

Some behaviours of the code that the model keeps, though a reader might expect otherwise:

- Any message type is handled in any session state; nothing orders login
  before character selection.
- Login refuses an unknown user first, then a user whose id some
  registered session already plays, then a wrong password, then a ban.
  The session's user is replaced before any of these checks.
- The server checks only that a new character's name is unused. The
  four-character minimum exists only in the client's form.
- `refuse` clears the acting session's accept flag twice and never the
  partner's. It stores null items.
- A one-sided `accept` sets the partner's flag, not the actor's.
- A committed trade moves the first item before it looks up the second.
- A mob's blow is floored at 1 in the player's attack but at the mob's
  level in the mob's own attack.
- Most refusals are notices with no state change, but many paths throw:
  a null character or a missing row in a scan, for example.

## Model

| member | source | states |
|---|---|---|
| `Levels.LevelFromExp` | server/Server.java:175-217 | The level always lies in 1..20. It is 1 exactly below 200 experience and 20 exactly from 29450 on. |
| `Levels.NextExp` | server/Server.java:219-263 | For a level in 1..19 it is that level's threshold in the table; for any other level it is 0. |
| `Levels.Reached` | server/Server.java:175-217 | A reference count of the thresholds an amount has reached; at most the table's length. |
| `Levels.ThresholdsIncreasing` | server/Server.java:219-263 | The table has 19 thresholds, each strictly above the one before. |
| `Levels.IncreasingOrdered` | server/Server.java:219-263 | In an increasing table, an earlier threshold is never above a later one. |
| `Levels.IncreasingTail` | server/Server.java:219-263 | The tail of an increasing table is increasing. |
| `Levels.ReachedBetween` | server/Server.java:175-217 | An amount between the k-th and (k+1)-th threshold has reached exactly k of them. |
| `Levels.ReachedMonotone` | server/Server.java:175-217 | More experience reaches at least as many thresholds. |
| `Levels.LevelCountsThresholds` | server/Server.java:175-217 | The if-chain equals the reference definition: one plus the thresholds reached. |
| `Levels.LevelMonotone` | server/Server.java:175-217 | The level never falls as experience grows. |
| `Levels.NextExpIsBoundary` | server/Server.java:175-263 | For L in 1..19, one point below NextExp(L) is level L and NextExp(L) itself is level L + 1. |
| `Levels.NextExpAboveLevel` | server/Server.java:175-263 | Below the top level, experience is always below the boundary of its own level. |
| `JavaText.IndexOf` | server/Server.java:1068 | String.indexOf: -1 exactly when the character is absent; otherwise a position that holds it. |
| `JavaText.IndexOfFirst` | server/Server.java:1068 | The position IndexOf finds is the first: the character does not occur before it. |
| `JavaText.TrimStart` | server/Server.java:1075-1077 | Drops the leading trimmable characters; the result does not start with one. |
| `JavaText.TrimEnd` | server/Server.java:1075-1077 | Drops the trailing trimmable characters; the result does not end with one and keeps the first character. |
| `JavaText.Trim` | server/Server.java:1075-1077 | String.trim: the result has no trimmable end, and a string without one comes back unchanged. |
| `JavaText.TrimStartSuffix` | server/Server.java:1075-1077 | What TrimStart keeps is a suffix of its input. |
| `JavaText.TrimEndPrefix` | server/Server.java:1075-1077 | What TrimEnd keeps is a prefix of its input. |
| `JavaText.TrimIsInside` | server/Server.java:1075-1077 | Trimming introduces no character. |
| `JavaText.TrimAfterSpace` | server/Server.java:1102-1103 | A single leading space is all that trimming removes from a trimmed string. |
| `JavaText.TrimEndKeepsHead` | server/Server.java:1100-1101 | A string starting with a non-trimmable character keeps at least that character. |
| `JavaText.IndexOfAfter` | server/Server.java:1098-1100 | The first space after a space-free stretch sits right after the stretch. |
| `JavaText.ToUpper` | client/ClientGUI.java:547-550 | Upper-cases ASCII letters at every position and leaves every other character alone. |
| `JavaText.DecimalBelow` | client/ClientGUI.java:748 | A string of n digits denotes less than 10^n. |
| `JavaText.DecimalAtLeast` | client/ClientGUI.java:748 | n digits with a non-zero first digit denote at least 10^(n-1). |
| `JavaText.ParseInt` | client/ClientGUI.java:748 | Integer.parseInt: never a value outside the int range, nothing for the empty string, and for a digit string exactly its value when that is at most 2147483647. |
| `JavaText.NineDigitsParse` | client/ClientGUI.java:748 | Every string of one to nine digits parses, to the value it denotes. |
| `JavaMath.Quot` | server/Server.java:172 | Java's `/` for a positive divisor: the quotient truncated toward zero, with the dividend's sign. |
| `JavaMath.Scaled` | server/Server.java:2236-2243 | `(int)(x * factor)` for a factor at most 1: never larger than x in size, and with x's sign. |
| `JavaMath.QuotBetween` | server/Server.java:169-172 | A sum of n values in lo..hi has its truncated mean in lo..hi. |
| `Records.Lookup` | library/DatabaseObject.java:121-123 | HashMap.get: the stored value for a present key, null for a missing one. |
| `Records.LoadParams` | library/DatabaseObject.java:76-91 | Below id 1 nothing changes; otherwise every existing key takes the row's value and the key set stays the same. |
| `Records.DatabaseObject.constructor` | library/DatabaseObject.java:20-23 | The id is the one given, the parameter map is empty and there is no table name; `id` is never reassigned. |
| `Records.DatabaseObject.SetParameters` | library/DatabaseObject.java:49-51 | The parameter map becomes the one given; the table name is untouched. |
| `Records.DatabaseObject.SetTableName` | library/DatabaseObject.java:59-61 | The table name becomes the one given; the parameters are untouched. |
| `Records.DatabaseObject.Set` | library/DatabaseObject.java:146-148 | Afterwards get(p) answers v, and every other key answers what it did before. |
| `Records.DatabaseObject.SetAll` | library/DatabaseObject.java:132-136 | Every entry of the argument is copied in; keys it does not mention keep their values. |
| `Records.DatabaseObject.Load` | library/DatabaseObject.java:76-91 | The parameters become LoadParams of the old ones: unchanged below id 1, and the key set is kept. |
| `Records.DatabaseObject.Save` | library/DatabaseObject.java:100-112 | An insert exactly when id < 1, otherwise an update of this object's id, with its table and values. |
| `Records.DatabaseObject.ReadyToSave` | library/DatabaseObject.java:156-162 | True exactly when no parameter value is null. |
| `Users.Seed` | library/User.java:7-14 | The seeded keys are exactly the user columns, each null. |
| `Users.UserParams` | library/User.java:5-16 | The keys are the user columns. Below id 1 all of them are null; otherwise each holds the row's value. |
| `Users.ValidatePassword` | library/User.java:18-20 | True exactly when the stored password is present and equal to the one given, case-sensitively. |
| `Users.UnknownUserRejectsAll` | library/User.java:5-20 | A user whose lookup gave an id below 1 accepts no password at all. |
| `Users.KnownUserPassword` | library/User.java:5-20 | A known user accepts exactly the password its row holds. |
| `Users.NewUser` | library/User.java:5-16 | A fresh object with the looked-up id, the "users" table, and the seeded and loaded parameters. |
| `NumberDocuments.Digits` | library/NumberDocument.java:31-33 | The digits of a string: only digits, and never longer than the string. |
| `NumberDocuments.DigitsOfPrefix` | library/NumberDocument.java:29-33 | The digits of a prefix are a prefix of the digits. |
| `NumberDocuments.OnlyDigitsInserted` | library/NumberDocument.java:29-36 | No character that is not a digit ever enters the document. |
| `NumberDocuments.StackedEmpty` | library/NumberDocument.java:29-36 | Something is inserted exactly when the string holds a digit. |
| `NumberDocuments.NoDigitsNoChange` | library/NumberDocument.java:29-36 | A string without digits leaves the text unchanged, at any offset. |
| `NumberDocuments.SingleDigit` | library/NumberDocument.java:29-36 | A single digit inserts exactly that digit at the offset. |
| `NumberDocuments.TwelveGivesOneTwoOne` | library/NumberDocument.java:29-36 | Pasting "12" into an empty field leaves "121" (as written). |
| `NumberDocuments.PrefixKept` | library/NumberDocument.java:35 | The text before the offset is never modified, and the old text stays in order around the insert. |
| `NumberDocuments.DigitsStep` | library/NumberDocument.java:31-33 | One more character adds its own digit, if it is one, at the end of the digits. |
| `NumberDocuments.InsertStep` | library/NumberDocument.java:29-36 | One pass of the loop puts the digits so far in front of what earlier passes inserted. |
| `NumberDocuments.RefusedStep` | library/NumberDocument.java:35 | The first non-empty insert at a bad offset is refused before anything changed. |
| `NumberDocuments.Filtered` | library/NumberDocument.java:23-37 | The intended effect: a string without digits leaves the text; otherwise it is refused exactly at a bad offset and the text grows by exactly the string's digits. |
| `NumberDocuments.DigitsAppend` | library/NumberDocument.java:31-33 | The digits of two strings in a row are the digits of each, in a row. |
| `NumberDocuments.PasteIsTyping` | library/NumberDocument.java:23-37 | With the intended filter, pasting a + b leaves the same text as typing a and then b right after it. |
| `NumberDocuments.OneCharacterAgrees` | library/NumberDocument.java:23-37 | For one character the code as written and the intended filter agree. |
| `NumberDocuments.TwelveGivesTwelve` | library/NumberDocument.java:23-37 | With the intended filter, pasting "12" into an empty field leaves "12". |
| `NumberDocuments.NumberDocument.constructor` | library/NumberDocument.java:19-21 | A new document is empty. |
| `NumberDocuments.NumberDocument.InsertPiece` | library/NumberDocument.java:35 | PlainDocument.insertString: an empty piece is ignored, a bad offset is refused, otherwise the piece goes in at the offset. |
| `NumberDocuments.NumberDocument.InsertString` | library/NumberDocument.java:23-37 | A null string leaves the text alone. Otherwise the new text is AfterInsert of the old, and a refused offset leaves the old text. |
| `NumberDocuments.NumberDocument.Keep` | library/NumberDocument.java:31-33 | `digits[length++] = ch` for a digit: the array's prefix gains that digit, and nothing happens for a non-digit. |
| `NumberDocuments.NumberDocument.InsertDigits` | library/NumberDocument.java:29-36 | The loop leaves exactly AfterInsert of the old text, or the old text when the document refuses the offset. |
| `NumberDocuments.NumberDocument.InsertFiltered` | library/NumberDocument.java:23-37 | The corrected insert leaves exactly Filtered of the old text: a null string or no digits change nothing. |
| `ClientGui.HexValue` | client/ClientGUI.java:962-967 | The value of an upper-case hexadecimal digit is its position in "0123456789ABCDEF". |
| `ClientGui.ToHex` | client/ClientGUI.java:962-967 | For 0..255: two hexadecimal digits whose value is the component. |
| `ClientGui.DigitValue` | client/ClientGUI.java:962-967 | Reading a digit of the alphabet back gives its position. |
| `ClientGui.ToHexInjective` | client/ClientGUI.java:962-967 | Different components get different codes. |
| `ClientGui.SelectCharacterForm` | client/ClientGUI.java:496-509 | Warns exactly when no character is selected; otherwise sends SELECT_CHARACTER with the name. |
| `ClientGui.CreateCharacterForm` | client/ClientGUI.java:535-554 | Warns for a name under 4 characters, then for no selected class; otherwise sends CREATE_CHARACTER with the name, the upper-cased class and the username. |
| `ClientGui.LoginForm` | client/ClientGUI.java:620-642 | Warns when the username or password is empty; otherwise sends LOGIN with both. |
| `ClientGui.CreateUserForm` | client/ClientGUI.java:655-681 | Warns when the username or password is empty; otherwise sends CREATE_USER with the username, password and name. |
| `ClientGui.ConnectionForm` | client/ClientGUI.java:738-753 | Warns for an empty host, then for an empty port. Otherwise it connects to the host and the port Integer.parseInt reads, and throws exactly when parseInt refuses the text. |
| `ClientGui.DigitPortConnects` | client/ClientGUI.java:724-751 | The port field holds only digits; up to nine of them always connect, to the port they denote. |
| `ClientGui.LongPortThrows` | client/ClientGUI.java:748 | A port of eleven nines is past the int range: the listener throws and no client is made. |
| `ClientGui.ClientView.constructor` | client/ClientGUI.java:97-108 | The window starts with the dark style, null colour pieces, a matching style sheet and an empty history. |
| `ClientGui.ClientView.UseDefaultColours` | client/ClientGUI.java:321-327 | The four colour rules take their default values; nothing else changes. |
| `ClientGui.ClientView.Display` | client/ClientGUI.java:305-310 | The text is appended to the history, nothing shown before is lost, and the panel shows the style sheet and the history. |
| `ClientGui.ClientView.SetFonts` | client/ClientGUI.java:435-450 | Without a text area nothing changes. Lights on gives white background and black text, off gives black and white, and the style sheet is rebuilt. |
| `ClientGui.ClientView.UpdateDemo` | client/ClientGUI.java:918-932 | The style sheet, preview and main text are rebuilt from the current pieces; the pieces and history stay. |
| `ClientGui.ClientView.SetColour` | client/ClientGUI.java:815-901 | The chosen class's rule gets the six-digit code of the picked colour; the other three rules and the history stay; the style sheet is rebuilt. |
| `World.NewSession` | server/Server.java:696-703 | A new handler has no user, no character, is offline and alive, and its trade fields are ("", -1, false). |
| `World.LoadUser` | library/User.java:5-16 | new User(username): the id of the name, and the columns loaded for that id. |
| `World.ParseBoolean` | server/Server.java:394 | Boolean.parseBoolean: a true answer needs a four-letter value, "true" gives true, and null gives false. |
| `World.StatsOf` | server/Server.java:987-1021 | The statistics message carries the row's hit points, experience, location and level. For levels 1 to 19 it carries the experience where the level ends: one point below it is still this level, at it the next. Other levels give 0. |
| `World.MobsIn` | server/Server.java:388-390 | The mobs of a room are exactly the mob rows located there. |
| `World.LastNamed` | server/Server.java:2095-2100 | The mob the attack loop picks is listed and has that name; there is none exactly when no listed mob has it. |
| `World.RemoveFirst` | server/Server.java:2159-2167 | Removing the first occurrence: one copy fewer and one element shorter when present, the list unchanged otherwise. |
| `World.Without` | server/Server.java:783 | Map.remove on the clients: the result holds exactly the other handles, and is unchanged when the handle is absent. |
| `World.SendAll` | server/Server.java:134-142 | The same message to every handle in order; only messages change. |
| `Audience.Scan` | server/Server.java:639-651 | A loop over the clients faults exactly when some client throws; it keeps only clients it takes, and, when no fault, all of them. |
| `Audience.ScanKeepsBeforeFault` | server/Server.java:639-651 | A client taken before any fault stays kept even if a later client throws. |
| `Audience.InRoom` | server/Server.java:635-671 | getCharactersInRoom: exactly the online sessions whose character is in the room; throws at an online session whose row is missing. |
| `Audience.SayAudience` | server/Server.java:1539-1561 | say's recipients: exactly the online sessions in the room; throws at any session whose row is missing. |
| `Audience.RoomAudience` | server/Server.java:2062-2078 | emote's recipients: exactly the sessions in the room, online or not. |
| `Audience.WhoAudience` | server/Server.java:1573-1580 | who lists exactly the registered sessions that hold a character; it never throws. |
| `Audience.EnteredAudience` | server/Server.java:1467-1503 | The arrival notice goes to exactly the online sessions in the new room other than the mover's. |
| `Audience.LeftAudience` | server/Server.java:1467-1503 | The departure notice goes to exactly the online sessions in the old room, not in the new one, other than the mover's. |
| `Audience.RoomChangeFaultsTogether` | server/Server.java:1467-1503 | Both notice loops read the same sessions in the same order, so they throw together. |
| `Audience.EnteredNotLeft` | server/Server.java:1467-1503 | No session hears of a move both as an arrival and as a departure. |
| `Audience.SayWithinEmote` | server/Server.java:1539-1561 | Everyone who hears `say` in a room also sees an `emote` there. |
| `Audience.InRoomIsSayAudience` | server/Server.java:635-652 | When no row is missing, the characters `look` lists are exactly the ones that hear `say`. |
| `Audience.Listeners` | server/Server.java:2869-2894 | The sessions a name loop reaches are online and play a character of that name. |
| `Audience.IdsAt` | server/Server.java:654-671 | getCharacterIDsInRoom: the character id of each kept session, in order. |
| `Chat.Say` | server/Server.java:1524-1563 | An empty text gets the usage notice. Otherwise the room's online characters hear it, and the handler throws exactly when the scan does; only messages change. |
| `Chat.SayReachesRoom` | server/Server.java:1539-1561 | Every online character in the speaker's room hears the line. |
| `Chat.Emote` | server/Server.java:2047-2081 | An empty text gets the usage notice. Otherwise every character in the room sees it, online or not. |
| `Chat.Ooc` | server/Server.java:2285-2313 | An empty text gets the usage notice; otherwise every registered client, in order. It never throws. |
| `Chat.Who` | server/Server.java:1564-1584 | One list of the names of every session holding a character, online or not. |
| `Chat.Commands` | server/Server.java:1506-1523 | The list of commands, then the statistics, to the client itself. |
| `Chat.Tell` | server/Server.java:1627-1704 | Empty text, unknown character and talking to oneself each get their notice. Otherwise the first online session playing that name gets the whisper and the speaker its echo; with no such session and no throw, the speaker hears that the character is not online. It throws exactly as the session loop does. |
| `Chat.WhisperReachesTarget` | server/Server.java:1627-1704 | A whisper reaches only an online session playing a character of that name. |
| `Chat.Shutdown` | server/Server.java:2032-2046 | Throws exactly without a user. An administrator starts the countdown; anyone else gets the refusal. |
| `Dispatch.LastMatch` | server/Server.java:1080-1089 | A command is found exactly when some entry matches. The one found matches and no later entry does: the last match wins. |
| `Dispatch.ExtractArguments` | server/Server.java:1093-1111 | Arity below 2 always succeeds. A success has exactly the arity's number of arguments. Two or more arguments fail when the rest has no space. |
| `Dispatch.ArgumentsShape` | server/Server.java:1094-1111 | Every argument is trimmed and all but the last are free of spaces. With a trimmed rest, none of those is empty. |
| `Dispatch.HeadToken` | server/Server.java:1100-1101 | The piece before the first space has no space, and is not empty when the text is trimmed. |
| `Dispatch.TrimKeepsHead` | server/Server.java:1100-1101 | Trimming a string whose first character is not trimmable leaves something. |
| `Dispatch.SplitLine` | server/Server.java:1068-1078 | With a space, the command is the text before the first space and the rest is what follows, trimmed. Without one, the command is the whole trimmed line and the rest is empty. |
| `Dispatch.Parse` | server/Server.java:1063-1111 | Unrecognized exactly when no entry matches the first word. Otherwise the command found matches it. A parse has exactly the arity's arguments; a syntax failure needs arity 2 or more. |
| `Dispatch.ParseUnique` | server/Server.java:1063-1111 | A line whose first word matches only c and whose rest cuts into args parses as c with args. |
| `Dispatch.JoinedIsTrimmed` | server/Server.java:1094-1111 | Words joined by single spaces, followed by a trimmed last part, form a trimmed string. |
| `Dispatch.ExtractJoined` | server/Server.java:1094-1111 | Extraction undoes joining: words separated by single spaces and a trimmed last part come back as exactly those arguments. |
| `Dispatch.ExtractJoinedStep` | server/Server.java:1094-1111 | The first word of a joined line comes off first, and the rest comes apart as before. |
| `Dispatch.ExtractAfterWord` | server/Server.java:1098-1103 | A word, a space and a trimmed remainder give the word and then the remainder's arguments. |
| `Dispatch.ExtractAtSpace` | server/Server.java:1098-1103 | With a space present, the first argument is the trimmed text before it and the rest come from what follows. |
| `Dispatch.FirstSpaceAfterWord` | server/Server.java:1098 | After a word, the first space is right at its end. |
| `Dispatch.TrimTrimmed` | server/Server.java:1096 | Trimming a trimmed string changes nothing. |
| `Execute.Refreshed` | server/Server.java:987-1056 | sendStats then sendFonts: the statistics, the font for the lights, and an empty line, to the client. |
| `Execute.SendStats` | server/Server.java:987-1021 | Without the character's row it throws; otherwise only the statistics are sent. |
| `Execute.Refresh` | server/Server.java:1120-1125 | Without the row it throws; otherwise exactly the three refresh messages are appended. |
| `Execute.Walk` | server/Server.java:1585-1626 | Exactly north, east, south and west re-issue `move` with a direction. |
| `Execute.Follow` | server/Server.java:1348-1349 | A handler that threw, or asks for nothing, ends there. |
| `Execute.Acted` | server/Server.java:2023-2031 | `quit` disconnects the session and never throws. |
| `Execute.Perform` | server/Server.java:1114 | `quit` is the disconnect, and it does not throw. |
| `Execute.Performed` | server/Server.java:1114 | `quit` runs as a disconnect, under the character's row. |
| `Execute.Reenter` | server/Server.java:1058-1060 | A re-dispatched command throws at once when the session holds no character. |
| `Execute.Conclude` | server/Server.java:1120-1125 | A handler that threw, or `quit`, ends there. Otherwise the refresh follows, and the last three messages are the refresh of the character's row. |
| `Execute.Execute` | server/Server.java:1112-1125 | Without a row the line logs under "null" and throws. A command other than `quit` that does not throw ends with the refresh. |
| `Execute.QuitSkipsRefresh` | server/Server.java:1112-1125 | `quit` logs the line, disconnects, and sends nothing after the departure notices. |
| `Execute.ExecuteLine` | server/Server.java:1058-1128 | No character: throws. Unknown word: "not recognized", then the refresh. Too few arguments: only the syntax notice, no handler, no refresh. Otherwise the parsed command runs. |
| `Execute.ParsesAs` | server/Server.java:1063-1111 | A line whose first word names exactly one client command, and whose rest cuts into args, reads back as it. |
| `Execute.OnlyLookIsLook` | server/Server.java:1144-1148 | Only `look` matches the word "look". |
| `Execute.OnlyInventoryIsInventory` | server/Server.java:1767-1771 | Only `inventory` matches the word "inventory". |
| `Execute.OnlyMoveIsMove` | server/Server.java:1302-1306 | Only `move` matches the word "move". |
| `Execute.LookLineParses` | server/Server.java:1348 | The line `move` re-issues reads back as `look` with no arguments. |
| `Execute.InventoryLineParses` | server/Server.java:1827 | The line `drop` and `trade` re-issue reads back as `inventory` with no arguments. |
| `Execute.MoveWordParses` | server/Server.java:1591 | "move " and one trimmed word without spaces reads back as `move` with that word. |
| `Execute.MoveLineParses` | server/Server.java:1591 | "move <direction>", as a walk issues it, reads back as `move` with the direction. |
| `Execute.WalkIsMove` | server/Server.java:1585-1626 | A walk does exactly what executing "move <direction>" does. |
| `Execute.Serve` | server/Server.java:723-755 | A dead session reads nothing more. A message that does not throw leaves the handler's outcome. A throw leaves the outcome with the session's thread ended and the client still registered. |
| `Items.PermanentNpcs` | server/Server.java:1144-1301 | The merchants `look` lists are exactly the permanent ones standing in the room. |
| `Items.Surroundings` | server/Server.java:1144-1301 | After the description, `look` shows the room's exits, then the items lying in it, then the rest. |
| `Items.Look` | server/Server.java:1144-1301 | Only the viewer's client is written to. It throws exactly for a missing room row or a room scan that meets a missing row; otherwise description, exits, items and company. |
| `Items.LookInRoom` | server/Server.java:1144-1301 | For an existing room, it throws exactly when the room scan does. |
| `Items.LookShowsExits` | server/Server.java:1144-1301 | `look` reports exactly the exits the room has, and the items lying in it. |
| `Items.LookNamesCompany` | server/Server.java:1144-1301 | Whoever is online in the room under a different name is named by `look`. |
| `Items.NameInNames` | server/Server.java:648 | The i-th name of the list is the name of the i-th session. |
| `Items.Inventory` | server/Server.java:1767-1787 | One list of the character's holdings to its own client; it never throws. |
| `Items.Grab` | server/Server.java:1705-1766 | Throws exactly for an item whose row is missing. A grab that qualifies moves one unit from the room to the character; any other changes only messages. |
| `Items.RefuseGrab` | server/Server.java:1710-1765 | Every refusal of `grab` only sends a message. |
| `Items.GrabConserves` | server/Server.java:1710-1765 | A grab moves one unit without creating or destroying any. |
| `Items.Drop` | server/Server.java:1788-1838 | Never throws. A drop that qualifies moves one unit to the room, unequips it, and asks for `inventory`; any other sends a message only. |
| `Items.RefuseDrop` | server/Server.java:1793-1837 | Every refusal of `drop` only sends a message. |
| `Items.DropUndoesGrab` | server/Server.java:1705-1838 | Dropping what was just grabbed puts the room and the inventory back as they were. |
| `Items.RequiredUnits` | server/Server.java:1844-2021 | The removal loop takes the required quantity when positive, else nothing. |
| `Items.Use` | server/Server.java:1839-2022 | Never throws. A use that qualifies records the effect, takes the required units, and sends the two notices; any other sends a message only. A known name whose row is gone is answered as not usable, since `usable` reads as null. |
| `Items.RefuseUse` | server/Server.java:1844-2021 | A refusal sends at most one message: a held item whose required item is not held gets no answer, and a known name without a row gets "cannot use". |
| `Items.UseTakesRequirement` | server/Server.java:1844-2021 | `use` takes exactly the required units of the required item, and no unit of anything else. |
| `Items.AddNewType` | server/Server.java:2320-2435 | Adding an item of a type not yet worn keeps every type worn at most once. |
| `Items.Equip` | server/Server.java:2314-2436 | Never throws. An equip that qualifies adds the item to the equipment; any other sends a message only. An empty argument lists the equipment, and a known name without a row is answered as not equippable. |
| `Items.RefuseEquip` | server/Server.java:2320-2435 | Every refusal of `equip` only sends a message; an empty argument lists what is worn, and a known name without a row gets "isn't equippable". |
| `Items.EquipKeepsOneOfEachType` | server/Server.java:2320-2435 | `equip` never lets two items of one type be worn together. |
| `Items.EquipEffect` | server/Server.java:2320-2435 | The equipment grows by the item exactly when equip qualifies, the item's type was not worn, and the item table is untouched. |
| `Items.Unequip` | server/Server.java:2437-2506 | Never throws. An unequip that qualifies removes the item from the equipment; any other sends a message only. |
| `Items.RefuseUnequip` | server/Server.java:2443-2506 | A refusal only sends messages; a held, unequipped item without a row is answered as not equippable, after the empty-argument question when the argument is empty. |
| `Items.UnequipUndoesEquip` | server/Server.java:2314-2506 | Unequipping what was just equipped gives back the equipment the character had. |
| `Items.Inspect` | server/Server.java:2507-2559 | Only answers. An item held or in the room is described by two notices; any other name gets one. |
| `Merchant.LastPrice` | server/Server.java:2614-2619 | The price the stock loop ends with: none exactly when the item is not listed, else the last listing's price. |
| `Merchant.FirstListing` | server/Server.java:2660-2662 | The first listing of the item, or -1 exactly when there is none. |
| `Merchant.RemoveListing` | server/Server.java:2660-2662 | removeItemFromNPC: the stock loses exactly its first listing of the item, or stays when there is none. |
| `Merchant.Times` | server/Server.java:2655-2658 | A Java counting loop runs n times for n >= 0 and not at all below. |
| `Merchant.Buy` | server/Server.java:2560-2668 | Throws exactly for a missing merchant row. A buy that qualifies adds the unit, takes the last listed price in caps and pulls one listing; any other sends a message only. |
| `Merchant.RefuseBuy` | server/Server.java:2565-2667 | Every refusal of `buy` only sends a message. |
| `Merchant.BuyPays` | server/Server.java:2565-2667 | Buying anything but caps adds one unit, takes exactly the price in caps, and shortens the stock by one listing. |
| `Merchant.BuyEffect` | server/Server.java:2565-2667 | The new holdings are one unit more of the item and the price fewer caps; the stock loses the first listing of the item. |
| `Merchant.Resale` | server/Server.java:2735-2736 | `(int)(price * 1.5)` lies between the price and twice the price. |
| `Merchant.Sell` | server/Server.java:2669-2744 | Throws exactly when it reads a missing row. A sale that qualifies takes a unit, pays the price in caps, and lists the item at the resale price; any other sends a message only. |
| `Merchant.RefuseSell` | server/Server.java:2674-2743 | Every refusal of `sell` only sends a message. |
| `Merchant.SellEffect` | server/Server.java:2674-2743 | One unit fewer, `requiredlevel*10 + effectamount*3` more caps, and a listing at the resale price appended; the tables stay. |
| `Merchant.SellWithoutOwning` | server/Server.java:2721-2731 | Selling never checks ownership: an item the character does not hold still earns its price. |
| `Merchant.SellThenBuy` | server/Server.java:2560-2744 | After a sale the merchant's last price for the item is the resale price, so it can be bought back. |
| `Merchant.Talk` | server/Server.java:3175-3264 | A merchant in its home room answers with its talk and stock; one elsewhere gets "not seen". Without a merchant, a named mob of the room answers or "talk to whom". It throws exactly for a missing merchant row. |
| `Movement.MoveDirection` | server/Server.java:1309-1330 | `move` accepts a direction's full name or its first letter. |
| `Movement.DoorDirection` | server/Server.java:3009-3030 | `unlock` accepts full names only. |
| `Movement.DirectionsUnderstood` | server/Server.java:1309-1330 | Both spellings of every direction are understood by `move`; only the full name by `unlock`. |
| `Movement.RoomChange` | server/Server.java:1467-1503 | Only messages change, and it throws exactly when the arrival scan throws. |
| `Movement.Move` | server/Server.java:1302-1466 | A missing room row throws with nothing changed. A move that qualifies sets the location to the exit and asks for `look`; any other sends a message only. |
| `Movement.MoveFollowsExits` | server/Server.java:1309-1465 | A character that moved went to the non-zero exit of the requested side, which is not the locked side. |
| `Movement.MoveKeepsPossessions` | server/Server.java:1307-1465 | `move` never touches an inventory, a room's items or the rooms. |
| `Movement.Unlock` | server/Server.java:3000-3174 | Throws exactly for a missing room row. An unlock that qualifies takes one key and releases the lock; any other sends a message only. |
| `Movement.UnlockSide` | server/Server.java:3030-3172 | On a known side: the key is used exactly when that side is locked and the key is held. |
| `Movement.Refuse` | server/Server.java:3030-3172 | The refusal names the key needed on the locked side, or says the side is not locked. |
| `Movement.UseKey` | server/Server.java:3030-3172 | One unit of the key leaves the inventory and the lock is released. |
| `Movement.UnlockOpensDoor` | server/Server.java:1309-3172 | After a door is unlocked, moving through it goes through whenever that side has an exit. |
| `Movement.LockedDoorBlocks` | server/Server.java:1309-1465 | A locked side stays shut to `move`, whatever the character carries. |
| `Trade.Partners` | server/Server.java:2774-2781 | The sessions playing the character; the loop throws exactly at a session without a character. |
| `Trade.Partner` | server/Server.java:2774-2781 | otherClient: the last session playing the character, or null exactly when there is none. |
| `Trade.Trade` | server/Server.java:2751-2998 | An unknown name gets "who is". A partner loop that throws aborts. Otherwise the negotiation runs with the partner found. |
| `Trade.Hand` | server/Server.java:2809-2818 | Removing and adding one unit changes only inventories, and nothing when the giver holds none. |
| `Trade.HandKeepsOthers` | server/Server.java:2809-2849 | Handing over touches no one else's belongings. |
| `Trade.HandMovesOne` | server/Server.java:2809-2849 | The two keep what they had together; a held unit moves from one to the other. |
| `Trade.Reset` | server/Server.java:2852-2855 | A session's trade fields become ("", -1, false); nothing else changes. |
| `Trade.ResetBoth` | server/Server.java:2852-2855 | Both sessions are reset and every other session stays. |
| `Trade.Commit` | server/Server.java:2791-2862 | Never throws. An unknown first item gets "what's" and changes nothing. Otherwise the first item moves and the partner's half follows. |
| `Trade.TakeBack` | server/Server.java:2821-2862 | An unknown second item gets "what's" (the first has moved). Otherwise the second item moves, both sessions reset, and both list their inventories. |
| `Trade.Echoed` | server/Server.java:2869-2894 | Each listener gets its notice and the acting client one reply per listener. |
| `Trade.AcceptOffer` | server/Server.java:2863-2897 | A one-sided accept sets the partner's accept flag and nothing else but the messages. |
| `Trade.Refuse` | server/Server.java:2900-2937 | The actor's item becomes null, its target -1 and its flag false. The partner's item becomes null and its target -1, its flag kept. Without a partner it throws. |
| `Trade.Offer` | server/Server.java:2940-2996 | An item not carried or a trade with oneself gets its notice. Otherwise the offer is recorded and heard. |
| `Trade.Propose` | server/Server.java:2961-2996 | The offer records the item and the character named, and the first online session of that name hears it. |
| `Trade.AcceptCommits` | server/Server.java:2783-2862 | An accept both sides agreed to is a commit. |
| `Trade.CommitResets` | server/Server.java:2852-2860 | A commit with both items known resets both sessions to ("", -1, false) and lists both inventories. |
| `Trade.CommitKeepsOthers` | server/Server.java:2809-2849 | A commit touches the belongings of the two traders only. |
| `Trade.CommitConserves` | server/Server.java:2809-2849 | A commit swaps one unit each way, each when held: the two keep what they had together. |
| `Trade.FirstItemMovesFirst` | server/Server.java:2809-2837 | With the second item unknown, the first item has already moved when the trade stops. |
| `Trade.OneSidedAccept` | server/Server.java:2863-2867 | A one-sided accept sets only the partner's flag: no item moves and no other field changes. |
| `Trade.AcceptFallsThrough` | server/Server.java:2783-2940 | An accept that matches neither case is an offer of an item named "accept". |
| `Trade.OnlyCommitsMoveItems` | server/Server.java:2751-2998 | Only an agreed accept changes what anyone carries. |
| `Trade.NegotiationKeeps` | server/Server.java:2783-2998 | After the partner lookup, items move only through an agreed accept. |
| `Trade.UnagreedAcceptKeeps` | server/Server.java:2863-2998 | An accept without both sides' agreement moves no item. |
| `Trade.OfferOrRefuseKeeps` | server/Server.java:2900-2998 | Offers and refusals move no item. |
| `Trade.OfferKeeps` | server/Server.java:2940-2996 | An offer moves no item. |
| `Trade.RefuseKeepsPartnerFlag` | server/Server.java:2902-2905 | `refuse` clears the acting session and the partner's item and target, never the partner's flag, and moves no item. |
| `Trade.OfferRecords` | server/Server.java:2961 | An offer of a carried item to another character records exactly that item and that character. |
| `Combat.StrikeBack` | server/Server.java:2146-2150 | In the player's attack, the mob's blow is damage less defense, and at least 1. |
| `Combat.Ambush` | server/Server.java:443-446 | In the mob's attack, the blow is damage less defense, or the mob's level when that is below 1. |
| `Combat.FloorsDiffer` | server/Server.java:446 | For a weak mob of level other than 1 the two floors give different blows. |
| `Combat.CapsDrop` | server/Server.java:2179-2186 | The caps dropped lie in 0..mobXP - 1. |
| `Combat.FractionBelow` | server/Server.java:2179 | A fraction below one of mobXP lies in 0..mobXP - 1. |
| `Combat.Attack` | server/Server.java:2082-2138 | No mob of that name: a notice only. A mob another character fights: a notice only. Otherwise the mob is claimed and the fight runs. |
| `Combat.DoAttack` | server/Server.java:2139-2284 | It throws exactly when the mob has no species row, or a kill meets a uid npcUIDs lacks or a mob worth no experience. A killing blow leaves the Slain state; any other leaves the Wounded state. |
| `Combat.LevelAfterKill` | server/Server.java:2202-2210 | The level after a kill never falls, and is either the old level or the table's level for the old experience plus mobXP. |
| `Combat.KillRewards` | server/Server.java:2152-2220 | The mob leaves the table and one copy leaves npcUIDs. Experience grows by exactly mobXP * mobLevel, 0 <= caps < mobXP are added, the level does not fall, and hit points and room stay. |
| `Combat.WoundCosts` | server/Server.java:2221-2281 | The mob loses exactly the character's damage. A blow back to 0 or below sends the character to room 1 and releases the claim; otherwise it loses exactly that blow, stays, and the claim stands. |
| `Combat.NearlyKilled` | server/Server.java:2230-2260 | A blow back to 0 or below: room 1, the claim released. |
| `Combat.BlowBackTaken` | server/Server.java:2261-2281 | A blow back the character survives: exactly that blow lost, the room and the claim kept. |
| `Combat.AttackClaims` | server/Server.java:2133-2136 | An unclaimed mob is claimed by the attacker before the blow, and stays claimed unless the blow back nearly kills. |
| `Combat.ClaimedMobSpared` | server/Server.java:2105-2125 | A mob claimed by another character takes no damage and keeps its claim. |
| `Combat.HostileMobs` | server/Server.java:388-397 | The hostile mobs of a room: exactly its mobs whose species row says hostile. |
| `Combat.HostileAmong` | server/Server.java:391-397 | The filter keeps exactly the listed mobs whose species is hostile. |
| `Combat.MobHit` | server/Server.java:439-500 | One blow: it throws exactly when the mob or the character row is gone, and touches only that character's row. |
| `Combat.RoundAsWritten` | server/Server.java:425-502 | The registry loop as written. It keeps sessions, registry and character keys; its effect is shown by RoundStrikesTwice. |
| `Combat.TargetSession` | server/Server.java:427-436 | The session the loop settles on plays the target, or none exactly when no session does. |
| `Combat.MobRound` | server/Server.java:425-502 | The corrected round: no change without a target session, otherwise exactly one blow. |
| `Combat.RoundStrikesTwice` | server/Server.java:425-502 | With a second session holding a character after the target's, the loop as written strikes twice; the corrected round once. |
| `Combat.Chosen` | server/Server.java:410-423 | The random target is 0 or one of the room's characters. |
| `Combat.MobAttack` | server/Server.java:399-507 | The attack timer leaves sessions, registry, inventories and the set of character rows as they were. Each blow takes its damage, defense and maximum hit points for that mob and its target. |
| `Combat.StrikesOnlyTheRoom` | server/Server.java:404-502 | The corrected round changes no character but the target, which was online in the room. |
| `Sessions.Disconnect` | server/Server.java:782-808 | The client leaves the registry and its thread ends. With a character, everyone still registered hears of it and the session goes offline; without one nothing is sent. |
| `Sessions.ConnectionLost` | server/Server.java:750-754 | A failed read removes the client from the registry silently and ends its thread. |
| `Sessions.WithoutRemovesOne` | server/Server.java:783 | Removing a registered client shrinks a duplicate-free registry by exactly one. |
| `Sessions.Accept` | server/Server.java:98-117 | A banned address is logged and kicked without a handler. Any other address is logged and gets a fresh handler that joins the registry. |
| `Sessions.AcceptKeepsRegistry` | server/Server.java:98-117 | Accepting keeps every registered client backed by a record, and none registered twice. |
| `Sessions.OwnedNames` | server/Server.java:872-873 | getCharactersForUser: exactly the names of the characters the user owns. |
| `Sessions.LoginAnswer` | server/Server.java:816-876 | Unknown user, user in play, wrong password, banned, in that order and each exactly when the earlier checks passed; otherwise the owned characters. Each refusal's log line is given. |
| `Sessions.Login` | server/Server.java:810-883 | The session's user becomes the loaded account before any check; then the log lines and the answer are added. |
| `Sessions.LoginNeedsPassword` | server/Server.java:816-876 | A login succeeds only for a stored user whose row holds exactly that password, who is not banned and whom no session plays. |
| `Sessions.PlayingClientRefused` | server/Server.java:827-845 | A client already playing a character is refused as logged in, whatever the password. |
| `Sessions.BannedRowRefused` | server/Server.java:855-862 | A user whose banned column holds "true" never logs in. |
| `Sessions.LoginKeepsCharacter` | server/Server.java:816-876 | No answer of `login` touches the session's character, presence or trade fields. |
| `Sessions.NewUserRow` | server/Server.java:939 | The row createUser stores has the three given columns; banned and admin are null. |
| `Sessions.CreateUser` | server/Server.java:920-953 | A username with an id above 0 is refused. Otherwise the row is stored under the next id, the session's user loaded from it, and the creation logged. |
| `Sessions.CreatedUserAcceptsPassword` | server/Server.java:920-953 | The new account accepts exactly the password given and is not banned. |
| `Sessions.NewCharacterRow` | server/Server.java:974 | The stored row is the database defaults with the name, class and owner given. |
| `Sessions.Confirm` | server/Server.java:977-980 | Logging reads the username and throws without a user; otherwise the creation is logged and answered. |
| `Sessions.CreateCharacter` | server/Server.java:955-985 | A name with an id above 0 is refused. Otherwise the row is stored and held before the logging can throw; it throws exactly without a user. |
| `Sessions.CreatedCharacterListed` | server/Server.java:955-985 | A created character is the session's, its name looks up to it, and it is listed at the owner's next login. |
| `Sessions.SelectCharacter` | server/Server.java:885-918 | The session holds the looked-up character before any check. It throws exactly without a user. Otherwise it goes online, logs, tells every client, and answers. |
| `Sessions.SelectAfterCreate` | server/Server.java:885-985 | Selecting a character just created holds it, goes online, and announces its name to every registered client. |
| `Sessions.CreatedNamed` | server/Server.java:955-985 | After a creation the user and registry are as before, and the new name shows as given. |
| `Sessions.SelectAnnounces` | server/Server.java:885-918 | With a user logged in, selecting announces the character's shown name to every registered client. |
| `Sessions.BroadcastReaches` | server/Server.java:134-142 | A broadcast reaches each of its clients. |
| `Scheduler.StartShutdown` | server/Server.java:583-626 | Both mob tasks are cancelled and a new countdown task starts at 0; nothing else changes. |
| `Scheduler.DisconnectAll` | server/Server.java:597-609 | Disconnecting a snapshot changes only registry, sessions and outbox, and keeps every session record. |
| `Scheduler.DisconnectAllEnds` | server/Server.java:597-609 | After it, no client of the snapshot is registered or alive, and every other session is untouched. |
| `Scheduler.CountdownTick` | server/Server.java:593-622 | A halted server stays halted. At count 10 everyone is disconnected and the process exits; before that the seconds left are announced and logged and the count goes up. |
| `Scheduler.Halt` | server/Server.java:595-614 | The last run: every client disconnected, the process gone. |
| `Scheduler.Announce` | server/Server.java:615-621 | A run before the last announces and logs 10 - count seconds and counts one up. |
| `Scheduler.CountdownLines` | server/Server.java:615-621 | The countdown's log lines: 10 - k seconds, then one fewer each run. |
| `Scheduler.CountdownCounts` | server/Server.java:593-622 | n runs from count k (k + n <= 10) advance the count to k + n, log the seconds 10 - k down, and do not halt. |
| `Scheduler.LinesUnfold` | server/Server.java:615-621 | The first countdown line followed by the rest is the whole countdown. |
| `Scheduler.TickAnnounces` | server/Server.java:615-621 | A run below 10 counts one up and logs the seconds left. |
| `Scheduler.ShutdownAfterElevenTicks` | server/Server.java:583-626 | After shutdown, ten runs announce 10 down to 1 seconds, and the eleventh ends the server. |
| `Scheduler.TicksSplit` | server/Server.java:593-622 | n + 1 runs are n runs and then one more. |
| `Scheduler.CharacterLevels` | server/Server.java:167-168 | getCharacterLevels: at most one level per character in the table order. |
| `Scheduler.LevelsAmong` | server/Server.java:167-168 | At most one level per listed id. |
| `Scheduler.LevelsBounded` | server/Server.java:167-171 | Every level listed is some row's level, so bounds on the rows bound the list. |
| `Scheduler.SumAtLeast` | server/Server.java:169-171 | A lower bound on every level bounds the sum from below. |
| `Scheduler.SumAtMost` | server/Server.java:169-171 | An upper bound on every level bounds the sum from above. |
| `Scheduler.AverageWithinLevels` | server/Server.java:162-173 | With characters, the average lies within the bounds of their levels; without any it is 3. |
| `Scheduler.MobLevel` | server/Server.java:559-564 | The new mob's level is the average plus or minus the spread, and never below 1. |
| `Scheduler.Spawn` | server/Server.java:527-575 | A drawn class without a species row throws with nothing changed. Otherwise a mob of that species with full hit points, an adjective name, a room in 2..29 and the computed level joins the table, npcUIDs and the log. |
| `Scheduler.SpawnLoop` | server/Server.java:525-576 | Unless it throws, the table ends with 15 mobs, or as many as it had when it had more. People, rooms and classes are untouched, and every row added is one npcUIDs entry. |
| `Scheduler.SpawnedMobsPlaced` | server/Server.java:525-576 | Every mob the spawner adds lies in rooms 2..29, has level at least 1, and is unclaimed. |
| `Scheduler.ChooseExit` | server/Server.java:297-332 | Case `start` falls through to later cases: the first valid exit from start on (none for start 4), none exactly when no later side is valid. |
| `Scheduler.Relocate` | server/Server.java:303-304 | The mob's location changes. The old room's sessions hear it left, then the new room's sessions hear it entered; the first scan throws exactly when either would. |
| `Scheduler.MoveMob` | server/Server.java:279-333 | A draw that stays changes nothing. A draw past npcUIDs throws. Only an unclaimed mob whose switch found a valid exit moves, and to that exit. |
| `Scheduler.MoveLoop` | server/Server.java:278-334 | Mobs only change room, a claimed mob never moves, and a mob that moved is in a valid room. |
| `Scheduler.MoverTick` | server/Server.java:273-335 | One run changes only mob rows, messages and the timer flags. |
| `Scheduler.StillMobsStay` | server/Server.java:278-334 | A run in which every draw says stay changes nothing. |
| `Scheduler.ShortUidListKillsMover` | server/Server.java:276-282 | npcUIDs shorter than the mob table, with the last draw moving, throws and stops both mob tasks. |
| `Scheduler.StillMobsStayUpTo` | server/Server.java:278-334 | Draws that say stay from index i up to n: running the loop from i is the same as running it from n. |
| `Admin.ScanFor` | server/Server.java:3351-3360 | The console loop throws exactly at a session lacking the field it reads, keeps only matches, and, without a throw, every match. |
| `Admin.LastMatchIsLastHit` | server/Server.java:3351-3360 | The client the command acts on is the last match: no later session matches. |
| `Admin.UserIdsOf` | server/Server.java:3378-3388 | The user ids of the matched sessions, one each, in order. |
| `Admin.AddressesOf` | server/Server.java:3405-3415 | Exactly the addresses of the matched sessions. |
| `Admin.SetBanned` | server/Server.java:3385-3386 | Each listed user with a row holds "true" in its banned column; every other row is kept. |
| `Admin.PutOut` | server/Server.java:3362-3368 | With none found the log says so. Otherwise the last client found is told why, leaves the registry, and its thread ends. No table changes. |
| `Admin.HitFound` | server/Server.java:3351-3362 | A scan that does not throw and meets a match finds something. |
| `Admin.NoHitNothingFound` | server/Server.java:3351-3368 | A scan that meets no match finds nothing. |
| `Admin.KickLines` | server/Server.java:3356-3357 | One log line per matching session. |
| `Admin.Kick` | server/Server.java:3345-3370 | It throws exactly when some registered session has no character with a row; no table changes. |
| `Admin.KickPutsOut` | server/Server.java:3345-3370 | A kick that finds its character disconnects the last such client and tells it why. |
| `Admin.KickNobody` | server/Server.java:3345-3370 | A kick that finds no such character only logs that it did not. |
| `Admin.BanLines` | server/Server.java:3382-3383 | One log line per user found. |
| `Admin.Ban` | server/Server.java:3371-3398 | It throws exactly when some registered session has no user. The users found are marked banned, even when the scan threw later. |
| `Admin.BanMarks` | server/Server.java:3371-3398 | Every user the ban found holds "true" in its banned column afterwards. |
| `Admin.BanPutsOut` | server/Server.java:3371-3398 | A ban that finds no unreadable session and some match does not throw; the last match is told the reason and disconnected. |
| `Admin.BanNobody` | server/Server.java:3371-3398 | A ban that matches nobody only logs "not found"; no row is marked. |
| `Admin.BannedUserRefused` | server/Server.java:3371-3398 | After a ban, a user it found is refused at login, whatever the password. |
| `Admin.IpBanLines` | server/Server.java:3409-3410 | One log line per session found. |
| `Admin.BanByIp` | server/Server.java:3399-3425 | The argument is compared with usernames. It throws exactly when some session has no user, and every matching session's address is banned. |
| `Admin.IpBannedAddressRefused` | server/Server.java:3399-3425 | After banbyip, a new connection from the address of a session it found is turned away. |
| `Admin.BanByIpPutsOut` | server/Server.java:3399-3425 | A banbyip that finds no unreadable session and some match does not throw; the last match is told the reason and disconnected. |
| `Admin.BanByIpNobody` | server/Server.java:3399-3425 | A banbyip that matches nobody only logs "not found"; no address is banned. |
| `Admin.RemoveUser` | server/Server.java:3448-3450 | deleteUser: the row goes, and with it exactly the username lookups that led to it. |
| `Admin.RemoveCharacter` | server/Server.java:3474-3476 | The character row, its name lookups and its place in the order go. |
| `Admin.Target` | server/Server.java:3349-3362 | The client a successful scan acts on is registered and matches. |
| `Admin.DeleteUser` | server/Server.java:3427-3452 | It throws, with nothing changed, exactly when a session has no user. None found: "not found". Otherwise the last match is put out and its user deleted. |
| `Admin.DropUser` | server/Server.java:3442-3450 | The client leaves the registry, its user row and every name leading to it go, and characters stay. |
| `Admin.DeleteCharacterAsWritten` | server/Server.java:3454-3478 | As written: usernames are compared, and the user numbered like the found session's character is deleted. |
| `Admin.DropCharacterAsWritten` | server/Server.java:3468-3476 | As written: the client leaves the registry and the user whose id is its character's id goes; characters stay. |
| `Admin.DeleteCharacterLosesUser` | server/Server.java:3458-3476 | The code as written keeps the character and deletes the user with the character's id. |
| `Admin.DeleteCharacter` | server/Server.java:3454-3478 | Corrected: the found session's character row is deleted instead. |
| `Admin.DropCharacter` | server/Server.java:3454-3478 | Corrected: the client leaves the registry, its character row and name lookups go, and users stay. |
| `Admin.ListUsers` | server/Server.java:3503-3524 | It throws, with nothing logged, exactly when a session has no user; otherwise one log entry with a line per client in order. |
| `Admin.Listing` | server/Server.java:3503-3524 | One line per registered client, in registry order. |
| `Admin.ServerNames` | server/Server.java:3488-3501 | The names of the console table in its order. |
| `Admin.ServerNamesListed` | server/Server.java:3337-3533 | The console table lists shutdown, kick, ban, banbyip, deleteuser, deletecharacter, move, commands and listusers. |
| `Admin.RunServer` | server/Server.java:3337-3533 | `move` does nothing, `shutdown` starts the countdown, and `commands` logs the table's names. |
| `Admin.ExecuteServer` | server/Server.java:3281-3335 | An unknown word and a line short of arguments are only logged; a parsed line runs its handler. |
| `Admin.OnlyShutdownIsShutdown` | server/Server.java:3339 | Only `shutdown` matches the word "shutdown". |
| `Admin.ShutdownLineStartsCountdown` | server/Server.java:3281-3345 | The console line "shutdown" starts the countdown. |
| `Admin.ShutdownLineParses` | server/Server.java:3288-3308 | "shutdown" reads back as the shutdown command with no arguments. |
| `Host.FindCommand` | server/Server.java:1080-1089 | The lookup loop leaves exactly LastMatch: a later match replaces an earlier one. |
| `Host.Prefixed` | server/Server.java:1093-1111 | The arguments read so far go in front of the rest's, and the syntax failure passes through. |
| `Host.ReadArguments` | server/Server.java:1093-1111 | The argument loop over an array of n slots leaves exactly ExtractArguments of the rest. |
| `Host.CutArgument` | server/Server.java:1095-1110 | One pass: the last slot takes the trimmed rest. An earlier one takes the text before the next space, or fails without a space. |
| `Host.ArgumentStep` | server/Server.java:1098-1103 | With a space, one argument comes off the front and the rest come from the remainder. |
| `Host.LastArgument` | server/Server.java:1095-1096 | The last argument is the whole trimmed rest. |
| `Host.ParseLine` | server/Server.java:1063-1111 | Splitting, lookup and argument loop together leave exactly Parse. |
| `Host.Joined` | server/Server.java:639-651 | The handles kept so far go in front of what the rest of the loop keeps. |
| `Host.ScanClients` | server/Server.java:639-651 | The client loop leaves exactly Scan: the handles kept before the first throw. |
| `Host.ScanFrom` | server/Server.java:639-651 | The scan from index i, by what the loop finds at i. |
| `Host.TotalLevel` | server/Server.java:169-171 | The summing loop leaves exactly the sum of the levels. |
| `Host.SumSnoc` | server/Server.java:169-171 | Summing one more level adds it. |
| `Host.AcceptEachKeepsRegistry` | server/Server.java:98-118 | A run of connections keeps every registered client backed by a record, and none registered twice. |
| `Host.BannedAddressNotRegistered` | server/Server.java:104-117 | A connection from a banned address leaves the registry and the handler records as they were. |
| `Host.SpawnStep` | server/Server.java:525-576 | One pass of the spawner's loop: a throw ends it, otherwise the table grows by one. |
| `Host.DisconnectStep` | server/Server.java:607-609 | Disconnecting the rest of a snapshot is its first client, then the others. |
| `Host.ClientLine` | server/Server.java:1058-1128 | The typed line, read by the loops and carried out, leaves exactly ExecuteLine. |
| `Host.Server.constructor` | server/Server.java:64-75 | The server holds the world given. |
| `Host.Server.AverageCharacterLevel` | server/Server.java:162-173 | Returns exactly AverageLevel of the world: 3 without characters, else the truncated mean. |
| `Host.Server.AcceptAll` | server/Server.java:98-118 | The accept loop leaves exactly AcceptEach of the old world over the connections. |
| `Host.Server.FindClients` | server/Server.java:3351-3360 | The console's client loop returns exactly ScanFor over the registry. |
| `Host.Server.KickClient` | server/Server.java:3345-3370 | The new world and the throw are exactly Kick of the old world. |
| `Host.Server.ExecuteClientLine` | server/Server.java:1058-1128 | The new world and the throw are exactly ExecuteLine of the old world. |
| `Host.Server.ExecuteConsoleLine` | server/Server.java:3281-3335 | The new world and the throw are exactly ExecuteServer of the old world. |
| `Host.Server.RunSpawner` | server/Server.java:516-577 | The while loop leaves exactly SpawnerTick of the old world. |
| `Host.Server.RunMover` | server/Server.java:273-335 | The for loop leaves exactly MoverTick of the old world. |
| `Host.Server.DisconnectEveryone` | server/Server.java:597-609 | The registry is copied into an array, then each is disconnected: exactly DisconnectAll of the old registry. |
| `Host.Server.Snapshot` | server/Server.java:597-605 | The copy is a fresh array holding the handles in order. |
| `Host.Server.CountdownRun` | server/Server.java:593-622 | One run leaves exactly CountdownTick of the old world. |

## Left out

- Sockets, object streams and threads are not modelled. Server.run's
  accept loop is a finite run of connections (`Host.Server.AcceptAll`),
  and a ClientHandler's read loop is one `Execute.Serve` per message.
  `library/Client.java` and `tests/NIOClient.java` are not part of this
  model.
- Timers: the spawner, mover and countdown are single runs with their
  draws as parameters; when they run is not modelled. The delay before a
  mob attacks is not modelled.
- DatabaseConnection is not part of this model. Its tables are maps in
  `World.World`, and the model assumes what the handlers imply:
  - removeItemFromCharacter removes one unit;
  - removeItemFromNPC removes the first listing of the item;
  - addItemToNPC appends a listing at the given price;
  - getCharactersForUser lists the user's characters in table order;
  - a ban marks the user row or the address;
  - deleteUser removes the row and its username lookup.
- A missing row of any table is the absence of a key. Where the code
  parses such a row's column as a number, the handler crashes. Other
  missing columns read as null: `DatabaseObject.load` catches the SQL
  error and leaves the value unset, so `usable` and `equippable` of a
  missing item row read as false. The Item class is not part of this
  model; its columns are assumed to start unset.
- DoorLocker and LightChanger are referenced but their code is not part
  of this model. The lights are a character field read by the refresh.
- Floating point: `library/ClassType.java` (class damage, defense and
  maximum hit points) is not part of this model. They come in as the
  `Env` values of a command. The attack timer takes one `Env` for each
  mob and the character it picked.
- The death penalties `(int)(x * .95)` and `(int)(x * .75)` and the
  resale `(int)(p * 1.5)` are exact rational truncations. Double
  rounding is not modelled.
- Random dialogue (`library/MobClass.java`,
  `library/NonPlayerCharacterClass.java`) and the database-only
  `library/Effect.java` are not part of this model. A used item's
  effect is a record in the world.
- The exact HTML of messages is not modelled: notices are kinds with
  their parameters.
- Swing layout, `client/ClientGUIV2.java`, the font.pref file, and the
  dialog loop that repeats until a name is entered are not modelled.
  The dialog loop appears as `ClientGui.CreateUserForm`'s requirement of
  a non-empty name.
- `NumberDocuments.Digits` keeps only the ASCII digits '0' to '9';
  Java's `Character.isDigit` also admits the decimal digits of other
  scripts.
- `JavaText.ParseInt` reads only ASCII digits; Java's
  `Integer.parseInt` also reads the decimal digits of other scripts.
- `JavaText.ToUpper` upper-cases only the ASCII letters; Java's
  `String.toUpperCase` also maps other letters and can change a
  string's length (German ß becomes SS).
- Java `int` overflow is not modelled: the level sum, experience,
  hit points and caps are unbounded integers.
- `World.StatsOf`: the message leaves out the basic stats array, the
  action points, the room's name and the class name. It carries the
  room id and the level instead.
- `Combat.RoundAsWritten`: its contract states only what it keeps. What
  it does to the target is shown for two sessions by
  `Combat.RoundStrikesTwice`. Its repeated blows on one target share one
  `Env`; the code reads damage and defense again for each blow.
- `Combat.MobAttack`: its contract states only what stays unchanged. One
  round's effect is stated by `Combat.MobRound` and
  `Combat.StrikesOnlyTheRoom`.
- `Admin.Kick`: its contract states the throw and the unchanged tables.
  The disconnect is stated by `Admin.KickPutsOut` and `Admin.KickNobody`.
- `Admin.Ban`: its contract states the throw, the unchanged tables and
  the banned rows. The disconnect and the "not found" line are stated by
  `Admin.BanPutsOut` and `Admin.BanNobody`.
- `Admin.BanByIp`: its contract states the throw, the unchanged tables
  and the banned addresses. The disconnect and the "not found" line are
  stated by `Admin.BanByIpPutsOut` and `Admin.BanByIpNobody`.
- `Movement.RoomChange`: its contract states only that messages change
  and when it throws. Who hears of the move is stated by
  `Audience.EnteredAudience` and `Audience.LeftAudience`.
- `Scheduler.MoverTick`: only the frame is in its contract. The per-mob
  effect is stated by `Scheduler.MoveLoop` and `Scheduler.MoveMob`.
- `Scheduler.CharacterLevels`: its contract gives only the length. The
  bound on the levels is `Scheduler.LevelsBounded`.
- The message kinds and text of `look`'s company and merchant lines,
  of `talk`'s mob dialogue, and of `commands` are parameters of the
  notices. The strings themselves are not modelled.
- A mob's own location check in `talk` is left out: every mob the loop
  reaches is in the character's room already.
- The `move` console command's body is empty in the code and does
  nothing in the model.

## Findings

| source | as written | input that shows it | evidently intended | confidence | as-written member | corrected member |
|---|---|---|---|---|---|---|
| server/Server.java:427-501 | The blow is inside the loop over all clients. Once `c` is set at the target's session, every later session holding a character strikes the target again. | Registry [a, b], both holding characters, the target playing a's character: the target loses two blows. | One blow per hostile mob on the target's session. | not executed | `Combat.RoundAsWritten` (shown by `Combat.RoundStrikesTwice`) | `Combat.MobRound` (with `Combat.StrikesOnlyTheRoom`) |
| server/Server.java:3454-3478 | `deletecharacter` compares its argument with usernames. It then deletes the user whose id equals the found session's character id. | The session of user "bob" holds character 7, and user 7 is another account: that account is deleted and character 7 stays. | Delete the found session's character row. The corrected member fixes only the deleted record: like the code, it still matches the argument against usernames, although the help text calls the argument 'character'. | not executed | `Admin.DeleteCharacterAsWritten` (shown by `Admin.DeleteCharacterLosesUser`) | `Admin.DeleteCharacter` (with `Admin.DropCharacter`) |
| library/NumberDocument.java:29-36 | Each loop pass inserts at the offset all digits gathered so far. | Pasting "12" into an empty field leaves "121". | Insert the string's digits once. | not executed | `NumberDocuments.NumberDocument.InsertString` (shown by `NumberDocuments.TwelveGivesOneTwoOne`) | `NumberDocuments.NumberDocument.InsertFiltered` (with `NumberDocuments.PasteIsTyping` and `NumberDocuments.TwelveGivesTwelve`) |
