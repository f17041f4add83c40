/**
 * The command tables of the server and the way a typed line is taken apart:
 * the first word picks a command (by name, or for players also by
 * abbreviation, the last table entry that matches winning), and the rest of
 * the line is cut into exactly as many arguments as the command takes, the
 * last one keeping the whole remainder.
 */
module Dispatch {
  import opened Wrappers
  import opened JavaText

  /** The player commands, in the order of the enum's values(). */
  datatype ClientCommand =
    | Look | Move | Commands | Say | Who | North | East | South | West | Tell
    | Grab | Inventory | Drop | Use | Quit | Shutdown | Emote | Attack | Ooc
    | Equip | Unequip | Inspect | Buy | Sell | Trade | Unlock | Talk

  /** The console commands of the administrator, in the order of the enum's values(). */
  datatype ServerCommand =
    | ShutdownServer | Kick | Ban | BanByIp | DeleteUser | DeleteCharacter
    | MoveCharacter | ListCommands | ListUsers

  /**
   * A command's row: its name (the lower-cased bold word of its description),
   * its abbreviation if it has one, and its number of arguments.
   */
  datatype Entry = Entry(name: string, abbreviation: Option<string>, arity: nat)

  const ClientOrder: seq<ClientCommand> :=
    [Look, Move, Commands, Say, Who, North, East, South, West, Tell,
     Grab, Inventory, Drop, Use, Quit, Shutdown, Emote, Attack, Ooc,
     Equip, Unequip, Inspect, Buy, Sell, Trade, Unlock, Talk]

  const ServerOrder: seq<ServerCommand> :=
    [ShutdownServer, Kick, Ban, BanByIp, DeleteUser, DeleteCharacter,
     MoveCharacter, ListCommands, ListUsers]

  function ClientEntry(c: ClientCommand): Entry
  {
    match c
    case Look => Entry("look", Some("l"), 0)
    case Move => Entry("move", Some("m"), 1)
    case Commands => Entry("commands", Some("cmds"), 0)
    case Say => Entry("say", Some("say"), 1)
    case Who => Entry("who", Some("who"), 0)
    case North => Entry("north", Some("n"), 0)
    case East => Entry("east", Some("e"), 0)
    case South => Entry("south", Some("s"), 0)
    case West => Entry("west", Some("w"), 0)
    case Tell => Entry("tell", Some("t"), 2)
    case Grab => Entry("grab", Some("g"), 1)
    case Inventory => Entry("inventory", Some("i"), 0)
    case Drop => Entry("drop", Some("d"), 1)
    case Use => Entry("use", Some("u"), 1)
    case Quit => Entry("quit", Some("q"), 0)
    case Shutdown => Entry("shutdown", Some("shutdown"), 0)
    case Emote => Entry("emote", Some("em"), 1)
    case Attack => Entry("attack", Some("a"), 1)
    case Ooc => Entry("ooc", Some("ooc"), 1)
    case Equip => Entry("equip", Some("eq"), 1)
    case Unequip => Entry("unequip", Some("uneq"), 1)
    case Inspect => Entry("inspect", Some("ins"), 1)
    case Buy => Entry("buy", Some("buy"), 2)
    case Sell => Entry("sell", Some("sell"), 2)
    case Trade => Entry("trade", Some("trade"), 2)
    case Unlock => Entry("unlock", Some("unlock"), 1)
    case Talk => Entry("talk", Some("talk"), 1)
  }

  /** Console commands are matched by name only. */
  function ServerEntry(c: ServerCommand): Entry
  {
    match c
    case ShutdownServer => Entry("shutdown", None, 0)
    case Kick => Entry("kick", None, 2)
    case Ban => Entry("ban", None, 2)
    case BanByIp => Entry("banbyip", None, 2)
    case DeleteUser => Entry("deleteuser", None, 1)
    case DeleteCharacter => Entry("deletecharacter", None, 1)
    case MoveCharacter => Entry("move", None, 2)
    case ListCommands => Entry("commands", None, 0)
    case ListUsers => Entry("listusers", None, 0)
  }

  /** String.equals against the name or the abbreviation: case-sensitive and exact. */
  predicate Matches(e: Entry, word: string)
  {
    word == e.name || (e.abbreviation.Some? && word == e.abbreviation.value)
  }

  /** The last command of `order` whose entry matches `word`, as the lookup loop leaves it. */
  function LastMatch<C>(order: seq<C>, entry: C -> Entry, word: string): (r: Option<C>)
    ensures r.Some? <==> exists i :: 0 <= i < |order| && Matches(entry(order[i]), word)
    ensures r.Some? ==> exists i :: (0 <= i < |order| && order[i] == r.value
      && Matches(entry(order[i]), word)
      && forall j :: i < j < |order| ==> !Matches(entry(order[j]), word))
  {
    if |order| == 0 then None
    else
      var last := order[|order| - 1];
      if Matches(entry(last), word) then Some(last)
      else
        var r := LastMatch(order[..|order| - 1], entry, word);
        assert forall i :: 0 <= i < |order| - 1 ==> order[..|order| - 1][i] == order[i];
        r
  }

  /**
   * The argument loop: `rest` is cut at its first space while more than one
   * argument is still wanted, each piece and the remainder trimmed; the last
   * argument is the trimmed remainder. None stands for the syntax message.
   */
  function ExtractArguments(rest: string, n: nat): (r: Option<seq<string>>)
    decreases n
    ensures n < 2 ==> r.Some?
    ensures r.Some? ==> |r.value| == n
    ensures n >= 2 && ' ' !in rest ==> r == None
  {
    if n == 0 then Some([])
    else if n == 1 then Some([Trim(rest)])
    else
      var k := IndexOf(rest, ' ');
      if k == -1 then None
      else
        match ExtractArguments(Trim(rest[k..]), n - 1)
        case None => None
        case Some(more) => Some([Trim(rest[..k])] + more)
  }

  /**
   * Every argument is trimmed, all but the last are free of spaces, and when
   * the remainder handed in is trimmed none of those is empty.
   */
  lemma {:induction false} ArgumentsShape(rest: string, n: nat)
    requires ExtractArguments(rest, n).Some?
    ensures var a := ExtractArguments(rest, n).value;
      (forall j :: 0 <= j < n ==> Trimmed(a[j]))
      && (forall j :: 0 <= j < n - 1 ==> ' ' !in a[j])
      && (Trimmed(rest) ==> forall j :: 0 <= j < n - 1 ==> |a[j]| > 0)
    decreases n
  {
    if n >= 2 {
      var k := IndexOf(rest, ' ');
      var tail := Trim(rest[k..]);
      ArgumentsShape(tail, n - 1);
      HeadToken(rest, k);
      var more := ExtractArguments(tail, n - 1).value;
      var a := ExtractArguments(rest, n).value;
      assert a == [Trim(rest[..k])] + more;
      assert forall j :: 1 <= j < n ==> a[j] == more[j - 1];
    }
  }

  /** The piece before the first space has no space, and is not empty when the text is trimmed. */
  lemma HeadToken(rest: string, k: int)
    requires k == IndexOf(rest, ' ') && k >= 0
    ensures ' ' !in Trim(rest[..k])
    ensures Trimmed(rest) ==> |Trim(rest[..k])| > 0
  {
    IndexOfFirst(rest, ' ');
    TrimIsInside(rest[..k]);
    if Trimmed(rest) {
      assert k > 0 && !IsTrimmable(rest[0]);
      TrimKeepsHead(rest[..k]);
    }
  }

  lemma TrimKeepsHead(s: string)
    requires |s| > 0 && !IsTrimmable(s[0])
    ensures |Trim(s)| > 0
  {
    assert TrimStart(s) == s;
    TrimEndKeepsHead(s);
  }

  /** A line's first word and the trimmed text after it. */
  datatype Split = Split(word: string, rest: string)

  /** The command is the text before the first space (the whole trimmed line when there is none). */
  function SplitLine(whole: string): (p: Split)
    ensures ' ' in whole ==> (|p.word| < |whole| && whole[..|p.word|] == p.word
      && whole[|p.word|] == ' ' && ' ' !in p.word
      && p.rest == Trim(whole[|p.word|..]))
    ensures ' ' !in whole ==> p.word == Trim(whole) && p.rest == ""
    ensures Trimmed(p.rest)
  {
    var k := IndexOf(whole, ' ');
    if k >= 0 then
      IndexOfFirst(whole, ' '); Split(whole[..k], Trim(whole[k..])) else Split(Trim(whole), "")
  }

  /** The outcome of reading a line against a table. */
  datatype Parsed<C> = Unrecognized | BadSyntax(command: C) | Parsed(command: C, arguments: seq<string>)

  function Parse<C>(order: seq<C>, entry: C -> Entry, whole: string): (r: Parsed<C>)
    ensures var p := SplitLine(whole);
      (r.Unrecognized? <==> forall i :: 0 <= i < |order| ==> !Matches(entry(order[i]), p.word))
    ensures !r.Unrecognized? ==> r.command in order && Matches(entry(r.command), SplitLine(whole).word)
    ensures r.Parsed? ==> (|r.arguments| == entry(r.command).arity
      && ExtractArguments(SplitLine(whole).rest, entry(r.command).arity) == Some(r.arguments))
    ensures r.BadSyntax? ==> ExtractArguments(SplitLine(whole).rest, entry(r.command).arity) == None
    ensures r.BadSyntax? ==> entry(r.command).arity >= 2
  {
    var p := SplitLine(whole);
    match LastMatch(order, entry, p.word)
    case None => Unrecognized
    case Some(c) =>
      match ExtractArguments(p.rest, entry(c).arity)
      case None => BadSyntax(c)
      case Some(args) => Parsed(c, args)
  }

  /** A line whose first word matches exactly the entry of `c`, and whose rest cuts into `args`, parses as `c` with `args`. */
  lemma ParseUnique<C>(order: seq<C>, entry: C -> Entry, whole: string, c: C, args: seq<string>)
    requires c in order
    requires forall i :: 0 <= i < |order| ==> (Matches(entry(order[i]), SplitLine(whole).word) <==> order[i] == c)
    requires ExtractArguments(SplitLine(whole).rest, entry(c).arity) == Some(args)
    ensures Parse(order, entry, whole) == Parsed(c, args)
  {
    var i :| 0 <= i < |order| && order[i] == c;
    assert Matches(entry(order[i]), SplitLine(whole).word);
  }

  function ParseClient(whole: string): Parsed<ClientCommand>
  {
    Parse(ClientOrder, ClientEntry, whole)
  }

  function ParseServer(whole: string): Parsed<ServerCommand>
  {
    Parse(ServerOrder, ServerEntry, whole)
  }

  /** Joined single-space words followed by a trimmed, non-empty last part are themselves trimmed. */
  lemma {:induction false} JoinedIsTrimmed(ws: seq<string>, last: string)
    requires forall i :: 0 <= i < |ws| ==> Word(ws[i])
    requires Trimmed(last) && |last| > 0
    ensures Trimmed(JoinWords(ws, last)) && |JoinWords(ws, last)| > 0
  {
    if |ws| > 0 {
      JoinedIsTrimmed(ws[1..], last);
      var j := JoinWords(ws[1..], last);
      assert JoinWords(ws, last) == ws[0] + " " + j;
      assert JoinWords(ws, last)[0] == ws[0][0];
    }
  }

  /**
   * Argument extraction undoes joining: words separated by single spaces
   * and a trimmed last part come back as exactly those arguments.
   */
  lemma {:induction false} ExtractJoined(ws: seq<string>, last: string)
    requires forall i :: 0 <= i < |ws| ==> Word(ws[i])
    requires Trimmed(last) && (|ws| > 0 ==> |last| > 0)
    ensures ExtractArguments(JoinWords(ws, last), |ws| + 1) == Some(ws + [last])
  {
    if |ws| > 0 {
      ExtractJoined(ws[1..], last);
      ExtractJoinedStep(ws, last);
    } else {
      TrimTrimmed(last);
      assert ws + [last] == [last];
    }
  }

  /** The first word of a joined line, given how the rest of the line comes apart. */
  lemma ExtractJoinedStep(ws: seq<string>, last: string)
    requires |ws| > 0 && (forall i :: 0 <= i < |ws| ==> Word(ws[i])) && Trimmed(last) && |last| > 0
    requires ExtractArguments(JoinWords(ws[1..], last), |ws|) == Some(ws[1..] + [last])
    ensures ExtractArguments(JoinWords(ws, last), |ws| + 1) == Some(ws + [last])
  {
    var j := JoinWords(ws[1..], last);
    assert JoinWords(ws, last) == ws[0] + " " + j;
    JoinedIsTrimmed(ws[1..], last);
    ExtractAfterWord(ws[0], j, ws[1..] + [last], |ws| + 1);
    ConsAppend(ws, last);
  }

  /** Putting the head back in front of the tail with `x` added gives the whole with `x` added. */
  lemma ConsAppend<T>(xs: seq<T>, x: T)
    requires |xs| > 0
    ensures [xs[0]] + (xs[1..] + [x]) == xs + [x]
  {
    assert [xs[0]] + xs[1..] == xs;
  }

  /** One step of the loop: a word, a space, and a trimmed remainder that yields `more`. */
  lemma ExtractAfterWord(w: string, j: string, more: seq<string>, n: nat)
    requires Word(w) && Trimmed(j) && n >= 2
    requires ExtractArguments(j, n - 1) == Some(more)
    ensures ExtractArguments(w + " " + j, n) == Some([w] + more)
  {
    var line := w + " " + j;
    assert line[..|w|] == w;
    assert line[|w|..] == " " + j;
    FirstSpaceAfterWord(w, j);
    TrimTrimmed(w);
    TrimAfterSpace(j);
    ExtractAtSpace(line, |w|, n);
  }

  lemma ExtractAtSpace(line: string, k: int, n: nat)
    requires n >= 2 && k == IndexOf(line, ' ') && k >= 0
    requires ExtractArguments(Trim(line[k..]), n - 1).Some?
    ensures ExtractArguments(line, n)
      == Some([Trim(line[..k])] + ExtractArguments(Trim(line[k..]), n - 1).value)
  {
  }

  lemma FirstSpaceAfterWord(w: string, j: string)
    requires Word(w)
    ensures IndexOf(w + " " + j, ' ') == |w|
  {
    assert ' ' !in w by {
      assert forall i :: 0 <= i < |w| ==> w[i] != ' ';
    }
    IndexOfAfter(w, ' ', j);
  }

  lemma TrimTrimmed(s: string)
    requires Trimmed(s)
    ensures Trim(s) == s
  {
  }
}
