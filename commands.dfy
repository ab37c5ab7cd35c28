/**
 * Classification of an incoming bot command and extraction of its argument:
 * the `Command` enumeration, `parseCommand` and `removeFirstWord`.
 */
module Commands {
  import opened Wrappers
  import opened Text

  datatype Command = Add | Clear | View | Collate | Split | Order | Menu

  /** The word, after the command marker, that selects each command. */
  function CommandName(c: Command): string {
    match c
    case Add => "add"
    case Clear => "clear"
    case View => "view"
    case Collate => "collate"
    case Split => "split"
    case Order => "order"
    case Menu => "menu"
  }

  lemma CommandNameInjective(c: Command, d: Command)
    requires CommandName(c) == CommandName(d)
    ensures c == d
  {
  }

  /**
   * `parseCommand`: drops the first character of the command entity (the `/`
   * marker, whatever it is) and matches the rest, case-sensitively, against the
   * seven command words; anything else is the Java `null`. The entity text must
   * be non-empty, since `substring(1)` throws on an empty string.
   */
  function ParseCommand(entityText: string): (r: Option<Command>)
    requires |entityText| >= 1
    ensures r.Some? ==> CommandName(r.value) == entityText[1..]
    ensures r.None? ==> forall c: Command :: CommandName(c) != entityText[1..]
  {
    var word := entityText[1..];
    if word == "add" then Some(Add)
    else if word == "clear" then Some(Clear)
    else if word == "view" then Some(View)
    else if word == "collate" then Some(Collate)
    else if word == "split" then Some(Split)
    else if word == "order" then Some(Order)
    else if word == "menu" then Some(Menu)
    else None
  }

  /** Any marker followed by a command's word is parsed back to that command. */
  lemma ParseCommandName(marker: char, c: Command)
    ensures ParseCommand([marker] + CommandName(c)) == Some(c)
  {
    var t := [marker] + CommandName(c);
    assert t[1..] == CommandName(c);
    var r := ParseCommand(t);
    if r.Some? {
      CommandNameInjective(r.value, c);
    }
  }

  /**
   * `removeFirstWord`: `str.substring(str.indexOf(" ") + 1)`. The text after the
   * first space, or the whole string when it has no space (`indexOf` gives -1).
   */
  function RemoveFirstWord(s: string): (r: string)
    ensures ' ' !in s ==> r == s
    ensures ' ' in s ==> |r| < |s| && s[|s| - |r| - 1] == ' ' && ' ' !in s[..|s| - |r| - 1]
    ensures r == s[|s| - |r|..]
  {
    s[IndexOf(s, ' ') + 1..]
  }

  /** A first word without spaces, a space, and the rest: the rest is what remains. */
  lemma RemoveFirstWordAfter(word: string, rest: string)
    requires ' ' !in word
    ensures RemoveFirstWord(word + " " + rest) == rest
  {
    var s := word + " " + rest;
    assert s[|word|] == ' ';
    assert s[..|word|] == word;
    assert IndexOf(s, ' ') == |word|;
    assert s[|word| + 1..] == rest;
  }
}
