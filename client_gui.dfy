/**
 * The non-widget logic of the graphical client: the colour encoder of the
 * font preferences, the checks the login, character and connection forms
 * make before they send anything, and the style sheet and history the main
 * text area shows.
 */
module ClientGui {
  import opened Wrappers
  import opened JavaText
  import opened Protocol

  const HexDigits := "0123456789ABCDEF"

  /** The value of one upper-case hexadecimal digit. */
  function HexValue(c: char): (v: int)
    ensures c in HexDigits ==> 0 <= v < 16 && HexDigits[v] == c
  {
    if '0' <= c <= '9' then c as int - '0' as int
    else if 'A' <= c <= 'F' then c as int - 'A' as int + 10
    else -1
  }

  /** toHex: a colour component as two hexadecimal digits; components lie in 0..255. */
  function ToHex(i: int): (h: string)
    requires 0 <= i <= 255
    ensures |h| == 2 && h[0] in HexDigits && h[1] in HexDigits
    ensures 16 * HexValue(h[0]) + HexValue(h[1]) == i
  {
    var high, low := (i - i % 16) / 16, i % 16;
    DigitValue(high);
    DigitValue(low);
    if i == 0 then "00" else [HexDigits[high], HexDigits[low]]
  }

  /** Reading a digit of the alphabet back gives its position. */
  lemma DigitValue(k: int)
    requires 0 <= k < 16
    ensures HexValue(HexDigits[k]) == k
  {
    if k < 8 {
      if k < 4 {
        if k < 2 { assert k == 0 || k == 1; } else { assert k == 2 || k == 3; }
      } else {
        if k < 6 { assert k == 4 || k == 5; } else { assert k == 6 || k == 7; }
      }
    } else {
      if k < 12 {
        if k < 10 { assert k == 8 || k == 9; } else { assert k == 10 || k == 11; }
      } else {
        if k < 14 { assert k == 12 || k == 13; } else { assert k == 14 || k == 15; }
      }
    }
  }

  /** Different components get different codes, so the encoding can be read back. */
  lemma ToHexInjective(i: int, j: int)
    requires 0 <= i <= 255 && 0 <= j <= 255 && ToHex(i) == ToHex(j)
    ensures i == j
  {
  }

  /** Java string concatenation of a possibly-null string. */
  function Show(s: Option<string>): string
  {
    if s.Some? then s.value else "null"
  }

  /**
   * What a form does when its button is pressed: a warning dialog, a request
   * to the server, the connection, or an exception that escapes the listener
   * and leaves the form as it was.
   */
  datatype FormOutcome = Warn(reason: Warning) | Send(request: Request) | Connect(host: string, port: int) | Threw

  datatype Warning = NoCharacterSelected | NameTooShort | NoClassSelected | MissingCredentials | NoHost | NoPort

  /** Select Character & Login: the selected name, if any. */
  function SelectCharacterForm(selected: Option<string>): (o: FormOutcome)
    ensures selected.None? <==> o == Warn(NoCharacterSelected)
    ensures selected.Some? ==> o == Send(SelectCharacterRequest(selected.value))
  {
    if selected.None? then Warn(NoCharacterSelected) else Send(SelectCharacterRequest(selected.value))
  }

  /** Create Character & Login: the name is checked first, the class list after. */
  function CreateCharacterForm(name: string, classIndex: int, className: string, username: Option<string>): (o: FormOutcome)
    ensures |name| < 4 <==> o == Warn(NameTooShort)
    ensures (|name| >= 4 && classIndex < 0) <==> o == Warn(NoClassSelected)
    ensures o.Send? <==> (|name| >= 4 && classIndex >= 0)
    ensures o.Send? ==> o.request == CreateCharacterRequest(name, ToUpper(className), username)
  {
    if |name| < 4 then Warn(NameTooShort)
    else if classIndex < 0 then Warn(NoClassSelected)
    else Send(CreateCharacterRequest(name, ToUpper(className), username))
  }

  /** Login: both fields must be filled in. */
  function LoginForm(username: string, password: string): (o: FormOutcome)
    ensures o.Send? <==> (|username| > 0 && |password| > 0)
    ensures !o.Send? ==> o == Warn(MissingCredentials)
    ensures o.Send? ==> o.request == LoginRequest(username, password)
  {
    if |username| == 0 || |password| == 0 then Warn(MissingCredentials)
    else Send(LoginRequest(username, password))
  }

  /** Create New User: the dialog asked until `name` was not empty; then both fields must be filled in. */
  function CreateUserForm(username: string, password: string, name: string): (o: FormOutcome)
    requires |name| > 0
    ensures o.Send? <==> (|username| > 0 && |password| > 0)
    ensures !o.Send? ==> o == Warn(MissingCredentials)
    ensures o.Send? ==> o.request == CreateUserRequest(username, password, name)
  {
    if |username| == 0 || |password| == 0 then Warn(MissingCredentials)
    else Send(CreateUserRequest(username, password, name))
  }

  /**
   * Connect: the host is checked before the port; then Integer.parseInt reads
   * the port, and a text it refuses throws before any client is made.
   */
  function ConnectionForm(host: string, port: string): (o: FormOutcome)
    ensures |host| == 0 <==> o == Warn(NoHost)
    ensures (|host| > 0 && |port| == 0) <==> o == Warn(NoPort)
    ensures o.Connect? <==> (|host| > 0 && ParseInt(port).Some?)
    ensures o.Connect? ==> o.host == host && ParseInt(port) == Some(o.port)
    ensures o == Threw <==> (|host| > 0 && |port| > 0 && ParseInt(port).None?)
  {
    if |host| == 0 then Warn(NoHost)
    else if |port| == 0 then Warn(NoPort)
    else
      match ParseInt(port)
      case Some(n) => Connect(host, n)
      case None => Threw
  }

  /** The port field admits only digits: up to nine of them always connect, to the port they denote. */
  lemma DigitPortConnects(host: string, port: string)
    requires |host| > 0 && 0 < |port| <= 9 && AllDigits(port)
    ensures ConnectionForm(host, port) == Connect(host, DecimalValue(port))
  {
    NineDigitsParse(port);
  }

  /** Eleven nines are past the int range: the listener throws and no connection is made. */
  lemma LongPortThrows()
    ensures ConnectionForm("localhost", "99999999999") == Threw
  {
    var p := "99999999999";
    assert AllDigits(p);
    DecimalAtLeast(p);
    assert Pow10(10) == 10000000000;
  }

  const BodyFont := " body {font-family:monospace;"
  const DarkBackground := " background : black;} "
  const LightBackground := " background : white;} "
  const DarkText := " .normal { color: white; }"
  const LightText := " .normal { color: black; }"
  const DemoBody := "<span class =\"normal\">this is an </span><span class=\"item\">item</span><br /><span class =\"normal\">this is an </span><span class=\"enemy\">enemy</span><br /><span class=\"normal\">this is a </span><span class=\"player\">player</span><br /><span class=\"normal\">this is a </span><span class=\"friendly\">friendly npc</span></head></html>"

  /** The colour classes a player can set in the font preferences. */
  datatype ColourClass = PlayerColour | EnemyColour | ItemColour | FriendlyColour

  /** The state the main window keeps for its text area. */
  class ClientView {
    var fontString: string
    var backgroundString: string
    var normalString: string
    var playerString: Option<string>
    var enemyString: Option<string>
    var itemString: Option<string>
    var friendlyString: Option<string>
    var cssString: string
    var displayHistory: string
    /** The text area exists (it is null before the widgets are built). */
    var hasTextArea: bool
    /** What the main text area shows. */
    var shown: string
    var demoText: string

    /** The style sheet the current pieces make. */
    function Css(): string
      reads this
    {
      "<html><head><style type=\"text/css\">" + fontString + backgroundString + normalString
        + Show(playerString) + Show(itemString) + Show(enemyString) + Show(friendlyString)
        + " </style><body>"
    }

    /** The window starts dark, with the colour pieces still null, and an empty history. */
    constructor (hasTextArea: bool)
      ensures backgroundString == DarkBackground && normalString == DarkText
      ensures playerString == None && enemyString == None && itemString == None && friendlyString == None
      ensures cssString == Css() && displayHistory == "" && this.hasTextArea == hasTextArea
    {
      fontString := BodyFont;
      backgroundString := DarkBackground;
      normalString := DarkText;
      playerString, enemyString, itemString, friendlyString := None, None, None, None;
      cssString := "";
      displayHistory := "";
      this.hasTextArea := hasTextArea;
      shown := "";
      demoText := "";
      new;
      cssString := Css();
    }

    /** The colours used when no preference file could be read. */
    method UseDefaultColours()
      modifies this
      ensures playerString == Some(" .player { color : #00FF00; }")
      ensures enemyString == Some(" .enemy { color : #FF3333; }")
      ensures itemString == Some(" .item { color :  #0099FF; }")
      ensures friendlyString == Some(" .friendly { color : #99CC00; }")
      ensures cssString == old(cssString) && displayHistory == old(displayHistory) && shown == old(shown)
      ensures backgroundString == old(backgroundString) && normalString == old(normalString) && fontString == old(fontString)
    {
      playerString := Some(" .player { color : #00FF00; }");
      enemyString := Some(" .enemy { color : #FF3333; }");
      itemString := Some(" .item { color :  #0099FF; }");
      friendlyString := Some(" .friendly { color : #99CC00; }");
    }

    /** Appends the text of a DISPLAY message; nothing shown before is lost. */
    method Display(data: string)
      modifies this
      ensures displayHistory == old(displayHistory) + data
      ensures old(displayHistory) <= displayHistory
      ensures shown == cssString + displayHistory && cssString == old(cssString)
    {
      displayHistory := displayHistory + data;
      shown := cssString + displayHistory;
    }

    /** SET_CLIENT_FONT: lights on means black text on white, off means white on black. */
    method SetFonts(lights: bool)
      modifies this
      ensures !old(hasTextArea) ==> (backgroundString == old(backgroundString) && normalString == old(normalString)
        && cssString == old(cssString) && shown == old(shown))
      ensures old(hasTextArea) && lights ==> backgroundString == LightBackground && normalString == LightText
      ensures old(hasTextArea) && !lights ==> backgroundString == DarkBackground && normalString == DarkText
      ensures old(hasTextArea) ==> cssString == Css() && shown == cssString + displayHistory
      ensures displayHistory == old(displayHistory) && fontString == old(fontString) && hasTextArea == old(hasTextArea)
      ensures playerString == old(playerString) && enemyString == old(enemyString)
        && itemString == old(itemString) && friendlyString == old(friendlyString)
    {
      if hasTextArea {
        if lights {
          backgroundString := LightBackground;
          normalString := LightText;
        } else {
          backgroundString := DarkBackground;
          normalString := DarkText;
        }
        cssString := Css();
        shown := cssString + displayHistory;
      }
    }

    /** Rebuilds the style sheet, the preview and the main text. */
    method UpdateDemo()
      modifies this
      ensures cssString == Css() && demoText == cssString + DemoBody && shown == cssString + displayHistory
      ensures displayHistory == old(displayHistory) && fontString == old(fontString)
      ensures backgroundString == old(backgroundString) && normalString == old(normalString)
      ensures playerString == old(playerString) && enemyString == old(enemyString)
        && itemString == old(itemString) && friendlyString == old(friendlyString)
    {
      cssString := Css();
      demoText := cssString + DemoBody;
      shown := cssString + displayHistory;
    }

    /** A colour picked in the preferences: its components become a six-digit code in that class's rule. */
    method SetColour(which: ColourClass, r: int, g: int, b: int)
      requires 0 <= r <= 255 && 0 <= g <= 255 && 0 <= b <= 255
      modifies this
      ensures var hex := ToHex(r) + ToHex(g) + ToHex(b);
        match which
        case PlayerColour => playerString == Some(" .player { color:#" + hex + "; }")
        case EnemyColour => enemyString == Some(" .enemy { color:#" + hex + "; }")
        case ItemColour => itemString == Some(" .item { color:#" + hex + "; }")
        case FriendlyColour => friendlyString == Some(" .friendly { color : #" + hex + "; } ")
      ensures which != PlayerColour ==> playerString == old(playerString)
      ensures which != EnemyColour ==> enemyString == old(enemyString)
      ensures which != ItemColour ==> itemString == old(itemString)
      ensures which != FriendlyColour ==> friendlyString == old(friendlyString)
      ensures cssString == Css() && demoText == cssString + DemoBody && shown == cssString + displayHistory
      ensures displayHistory == old(displayHistory)
    {
      var hex := ToHex(r) + ToHex(g) + ToHex(b);
      match which {
        case PlayerColour => playerString := Some(" .player { color:#" + hex + "; }");
        case EnemyColour => enemyString := Some(" .enemy { color:#" + hex + "; }");
        case ItemColour => itemString := Some(" .item { color:#" + hex + "; }");
        case FriendlyColour => friendlyString := Some(" .friendly { color : #" + hex + "; } ");
      }
      UpdateDemo();
    }
  }
}
