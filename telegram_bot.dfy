/**
 * The command handlers of the Spendora Telegram bot (`interface/telegram-bot.py`).
 * A handler answers the text of one chat message; each handler is modelled by
 * what it would pass to `reply_text`, in order, and whether it raises.
 */
module TelegramBot {
  import opened Wrappers
  import PyBuiltins

  /** The reply of `/start`. */
  const Greeting: string :=
    "Olá, sou a Spendora, sua assistente financeira. Você deseja criar seu controle financeiro por aqui?"

  /** The reply of `/help`. */
  const Instructions: string :=
    "Para criar seu controle financeiro, basta enviar uma mensagem com /adicionar <valor> \nE seguir os proximos passos!"

  /** The reply of `/adicionar` without an argument. */
  const ValueRequiredReply: string := "Sera necessario adicionar um valor para salvar."

  /** The reply of `/adicionar` with an argument that is zero or negative. */
  const NotPositiveReply: string := "O valor da sua transação não pode ser negativo."

  /** What the reply of `/adicionar` with a positive argument starts with. */
  const EchoPrefix: string := "O valor da sua transação é: "

  /** The four ways an `/adicionar` message ends. */
  datatype AddOutcome =
    | ValueRequired               // the text has no second piece
    | NotPositive(price: string, amount: int)  // the second piece reads as an integer <= 0
    | Echo(price: string)         // the second piece reads as an integer > 0
    | ParseError(price: string)   // `int(price)` raises ValueError; nothing is sent
  {
    /** The texts the handler sends, in order: one per branch, none when it raises. */
    function Replies(): (r: seq<string>)
      ensures |r| <= 1
      ensures r == [] <==> ParseError?
      ensures Echo? ==> |r| == 1 && EchoPrefix <= r[0] && r[0][|EchoPrefix|..] == price
    {
      match this
      case ValueRequired => [ValueRequiredReply]
      case NotPositive(_, _) => [NotPositiveReply]
      case Echo(p) => [EchoPrefix + p]
      case ParseError(_) => []
    }
  }

  /** `start`: the same greeting, whatever the message says. */
  function Start(text: string): (replies: seq<string>)
    ensures replies == [Greeting]
  {
    [Greeting]
  }

  /** `help`: the same instructions, whatever the message says. */
  function Help(text: string): (replies: seq<string>)
    ensures replies == [Instructions]
  {
    [Instructions]
  }

  /** How `add` treats the piece it reads as the price. */
  function Judge(price: string): (r: AddOutcome)
    ensures !r.ValueRequired? && r.price == price
    ensures r.ParseError? <==> PyBuiltins.Int(price).None?
    ensures r.NotPositive? ==> PyBuiltins.Int(price) == Some(r.amount) && r.amount <= 0
    ensures r.Echo? ==> PyBuiltins.Int(price).Some? && PyBuiltins.Int(price).value > 0
  {
    match PyBuiltins.Int(price)
    case None => ParseError(price)
    case Some(n) => if n <= 0 then NotPositive(price, n) else Echo(price)
  }

  /**
   * `add`: split the message text on single spaces; without a second piece
   * ask for a value; otherwise read the second piece with `int` and refuse a
   * value <= 0 or echo the piece as typed.
   */
  function Add(text: string): (r: AddOutcome)
    ensures r.ValueRequired? <==> ' ' !in text
  {
    PyBuiltins.SplitShape(text);
    var userText := PyBuiltins.Split(text);
    if |userText| == 1 then ValueRequired
    else Judge(userText[1])
  }

  // ---------------------------------------------------------------------------
  // Properties of `add`
  // ---------------------------------------------------------------------------

  /**
   * Only the second piece is read: for a first piece, one space, a price
   * without spaces and then nothing or anything that starts with a space,
   * the outcome is the price's.
   */
  lemma AddReadsSecondPiece(command: string, price: string, rest: string)
    requires ' ' !in command && ' ' !in price
    requires rest == [] || rest[0] == ' '
    ensures Add(command + " " + price + rest) == Judge(price)
  {
    var text := command + " " + price + rest;
    assert text == command + " " + (price + rest);
    PyBuiltins.SplitAround(command, price + rest);
    PyBuiltins.SplitJoin([command]);
    PyBuiltins.SplitJoin([price]);
    var tail := PyBuiltins.Split(price + rest);
    if rest == [] {
      assert price + rest == price;
    } else {
      assert price + rest == price + " " + rest[1..];
      PyBuiltins.SplitAround(price, rest[1..]);
    }
    assert tail[0] == price;
    var pieces := PyBuiltins.Split(text);
    assert pieces == [command] + tail;
    assert |pieces| > 1 && pieces[1] == price;
  }

  /** Once the text has a second piece, what follows a further space is ignored. */
  lemma AddIgnoresLaterPieces(text: string, more: string)
    requires ' ' in text
    ensures Add(text + " " + more) == Add(text)
  {
    PyBuiltins.SplitAround(text, more);
    PyBuiltins.SplitShape(text);
    PyBuiltins.SplitShape(more);
    var pieces := PyBuiltins.Split(text);
    assert |pieces| > 1;
    assert PyBuiltins.Split(text + " " + more)[1] == pieces[1];
  }

  /** Two spaces after the command give an empty second piece, which `int` refuses. */
  lemma DoubleSpaceRaises(command: string, rest: string)
    requires ' ' !in command
    ensures Add(command + "  " + rest) == ParseError("")
    ensures Add(command + "  " + rest).Replies() == []
  {
    assert command + "  " + rest == command + " " + "" + (" " + rest);
    AddReadsSecondPiece(command, "", " " + rest);
  }

  /** A price written as Python writes `n` is judged by the value of `n`; 0 is refused too. */
  lemma AddOfStr(command: string, n: int)
    requires ' ' !in command
    ensures Add(command + " " + PyBuiltins.Str(n)) ==
            if n <= 0 then NotPositive(PyBuiltins.Str(n), n) else Echo(PyBuiltins.Str(n))
  {
    var price := PyBuiltins.Str(n);
    assert ' ' !in price;
    PyBuiltins.IntStr(n);
    assert command + " " + price == command + " " + price + [];
    AddReadsSecondPiece(command, price, []);
  }

  /** A price with a character no number can hold makes `add` raise without replying. */
  lemma ForeignPriceRaises(command: string, price: string, i: nat)
    requires ' ' !in command && ' ' !in price
    requires i < |price| && PyBuiltins.IsForeign(price[i])
    ensures Add(command + " " + price) == ParseError(price)
  {
    PyBuiltins.ForeignCharRaises(price, i);
    assert command + " " + price == command + " " + price + [];
    AddReadsSecondPiece(command, price, []);
  }

  // ---------------------------------------------------------------------------
  // Example messages
  // ---------------------------------------------------------------------------

  // Each example below is evaluated in a lemma of its own, which reads its
  // literal piece through the general lemmas about `int` (`IntOfGroups`,
  // `IntOfSignedGroups`, `UnderscoreIgnored`, `TrailingSpaceIgnored`).

  lemma JudgeMinusFive()
    ensures Judge("-5") == NotPositive("-5", -5)
  {
    PyBuiltins.IntOfSignedGroups("5");
    assert PyBuiltins.DigitsValue("5") == 5;
    assert "-" + "5" == "-5";
  }

  lemma JudgeZero()
    ensures Judge("0") == NotPositive("0", 0)
  {
    PyBuiltins.IntOfGroups("0");
  }

  lemma JudgeFive()
    ensures Judge("5") == Echo("5")
  {
    PyBuiltins.IntOfGroups("5");
  }

  lemma JudgeLeadingZeros()
    ensures Judge("007") == Echo("007")
  {
    PyBuiltins.IntOfGroups("007");
  }

  lemma JudgeHundred()
    ensures Judge("100") == Echo("100")
  {
    PyBuiltins.IntOfGroups("100");
  }

  lemma JudgeUnderscore()
    ensures Judge("1_000") == Echo("1_000")
  {
    var price := "1" + "_" + "000";
    PyBuiltins.UnderscoreIgnored("1", "000");
    PyBuiltins.LeadingDigitPositive("1" + "000");
    assert price == "1_000";
  }

  lemma JudgeTrailingNewline()
    ensures Judge("+5\n") == Echo("+5\n")
  {
    PyBuiltins.IntOfSignedGroups("5");
    PyBuiltins.TrailingSpaceIgnored("+5", '\n');
    assert "+" + "5" == "+5" && "+5" + ['\n'] == "+5\n";
  }

  /** The command, one space, and a piece without spaces. */
  lemma AddCommandWith(price: string)
    requires ' ' !in price
    ensures Add("/adicionar " + price) == Judge(price)
  {
    assert "/adicionar " + price == "/adicionar" + " " + price + [];
    AddReadsSecondPiece("/adicionar", price, []);
  }

  lemma NoArgumentAsksForValue()
    ensures Add("/adicionar").Replies() == ["Sera necessario adicionar um valor para salvar."]
  {
    assert ' ' !in "/adicionar";
  }

  lemma NegativeIsRefused()
    ensures Add("/adicionar " + "-5") == NotPositive("-5", -5)
    ensures Add("/adicionar " + "-5").Replies() == ["O valor da sua transação não pode ser negativo."]
  {
    JudgeMinusFive();
    AddCommandWith("-5");
  }

  /** Zero gets the "cannot be negative" reply as well. */
  lemma ZeroIsRefused()
    ensures Add("/adicionar " + "0") == NotPositive("0", 0)
  {
    JudgeZero();
    AddCommandWith("0");
  }

  lemma PositiveIsEchoed()
    ensures Add("/adicionar " + "100").Replies() == ["O valor da sua transação é: 100"]
  {
    JudgeHundred();
    AddCommandWith("100");
    assert EchoPrefix + "100" == "O valor da sua transação é: 100";
  }

  /** The echo repeats the piece as typed, not `str(int(piece))`. */
  lemma EchoKeepsTypedText()
    ensures Add("/adicionar " + "007") == Echo("007") && PyBuiltins.Str(7) != "007"
    ensures Add("/adicionar " + "1_000") == Echo("1_000")
    ensures Add("/adicionar " + "+5\n") == Echo("+5\n")
  {
    JudgeLeadingZeros();
    JudgeUnderscore();
    JudgeTrailingNewline();
    AddCommandWith("007");
    AddCommandWith("1_000");
    AddCommandWith("+5\n");
  }

  /** A word as the argument makes the handler raise; nothing is sent. */
  lemma WordRaises()
    ensures Add("/adicionar " + "abc") == ParseError("abc")
    ensures Add("/adicionar " + "abc").Replies() == []
  {
    PyBuiltins.ForeignCharRaises("abc", 0);
    AddCommandWith("abc");
  }

  lemma ExtraPiecesIgnored()
    ensures Add("/adicionar " + "5" + " reais") == Echo("5")
  {
    JudgeFive();
    assert "/adicionar " + "5" + " reais" == "/adicionar" + " " + "5" + " reais";
    AddReadsSecondPiece("/adicionar", "5", " reais");
  }
}
