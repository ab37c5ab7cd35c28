/**
 * Concrete conversations with the handler: each scenario drives `Execute` as
 * the bot would for a short sequence of messages, and its contract states the
 * exact results the handler holds afterwards.
 */
module Scenarios {
  import opened Wrappers
  import opened Text
  import Commands
  import opened Orders
  import opened Render
  import opened Handler

  /** How the scenarios print an order: just its item name. */
  function NameView(o: Order): string {
    o.name
  }

  /** A command entity `/word` is parsed as the command whose word it is. */
  lemma SlashCommand(c: Commands.Command)
    ensures |"/" + Commands.CommandName(c)| > 0
    ensures Commands.ParseCommand("/" + Commands.CommandName(c)) == Some(c)
  {
    Commands.ParseCommandName('/', c);
    assert "/" + Commands.CommandName(c) == ['/'] + Commands.CommandName(c);
  }

  /** The message `/word argument` carries `argument` for the command `/word`. */
  lemma SlashArgument(c: Commands.Command, argument: string)
    ensures Commands.RemoveFirstWord("/" + Commands.CommandName(c) + " " + argument) == argument
  {
    Commands.RemoveFirstWordAfter("/" + Commands.CommandName(c), argument);
  }

  /** The user sends `/add item`. */
  method SendAdd(h: RequestHandler, item: string, userId: int, firstName: string)
    modifies h
    ensures h.orders == old(h.orders) + [Order(userId, firstName, Capitalize(item))]
  {
    SlashCommand(Commands.Add);
    SlashArgument(Commands.Add, item);
    assert "/" + Commands.CommandName(Commands.Add) == "/add";
    var _ := h.Execute("/add", "/add" + " " + item, userId, firstName, 7, NameView);
  }

  /** The user sends `/collate`. */
  method SendCollate(h: RequestHandler) returns (text: string)
    modifies h
    ensures h.orders == old(h.orders)
    ensures IsCollation(h.orders, text)
  {
    SlashCommand(Commands.Collate);
    assert "/" + Commands.CommandName(Commands.Collate) == "/collate";
    var _ := h.Execute("/collate", "/collate", 1, "Alice", 7, NameView);
    text := h.response.value;
  }

  /** The user sends `/split`. */
  method SendSplit(h: RequestHandler) returns (text: string)
    modifies h
    ensures h.orders == old(h.orders)
    ensures IsSplit(h.orders, text)
  {
    SlashCommand(Commands.Split);
    assert "/" + Commands.CommandName(Commands.Split) == "/split";
    var _ := h.Execute("/split", "/split", 1, "Alice", 7, NameView);
    text := h.response.value;
  }

  /** The user sends `/menu name`. */
  method SendMenu(h: RequestHandler, name: string, chatId: int)
    modifies h
    ensures h.response == None && h.audioOrder == None
    ensures name == MenuShakeShack ==> h.photoMessage == Some(MenuPhoto(chatId)) && h.menuMap == old(h.menuMap) + {name}
    ensures name != MenuShakeShack ==> h.photoMessage == None && h.menuMap == old(h.menuMap)
  {
    SlashCommand(Commands.Menu);
    SlashArgument(Commands.Menu, name);
    assert "/" + Commands.CommandName(Commands.Menu) == "/menu";
    var _ := h.Execute("/menu", "/menu" + " " + name, 1, "Alice", chatId, NameView);
  }

  lemma CapitalisedItems()
    ensures Capitalize("burger") == "Burger" && Capitalize("taco") == "Taco"
  {
    assert UpperCase('b') == 'B' && UpperCase('t') == 'T';
  }

  lemma BurgerCounts()
    ensures ItemCounts([Order(1, "Alice", "Burger"), Order(1, "Alice", "Burger")]) == map["Burger" := 2]
  {
    var burger := Order(1, "Alice", "Burger");
    ItemCountsSnoc([], burger);
    assert [] + [burger] == [burger];
    ItemCountsSnoc([burger], burger);
    assert [burger] + [burger] == [burger, burger];
  }

  /** Two orders of one item collate to a single plural line. */
  lemma BurgerCollation(text: string)
    requires IsCollation([Order(1, "Alice", "Burger"), Order(1, "Alice", "Burger")], text)
    ensures text == CollateHeader + "2 x Burgers\n"
  {
    BurgerCounts();
    var counts := map["Burger" := 2];
    var keys :| IsKeyOrder(keys, counts.Keys) && text == CollateHeader + ItemLines(keys, counts);
    KeyOrderOfOne(keys, "Burger");
    ItemLinesOfOne("Burger", counts);
    BurgersLine();
  }

  lemma TacoBurgerGroups()
    ensures UserGroups([Order(2, "Bob", "Taco"), Order(1, "Alice", "Burger")])
         == map["Bob" := [Order(2, "Bob", "Taco")], "Alice" := [Order(1, "Alice", "Burger")]]
  {
    var taco, burger := Order(2, "Bob", "Taco"), Order(1, "Alice", "Burger");
    UserGroupsSnoc([], taco);
    assert [] + [taco] == [taco];
    UserGroupsSnoc([taco], burger);
    assert [taco] + [burger] == [taco, burger];
  }

  lemma SplitBodyOfTwo(groups: map<string, seq<Order>>, a: string, b: string)
    requires a in groups && b in groups
    ensures SplitBody(groups, [a, b]) == SplitSection(a, groups[a]) + SplitSection(b, groups[b])
  {
    assert [a, b][..1] == [a];
    assert [a][..0] == [];
    assert SplitBody(groups, [a]) == "" + SplitSection(a, groups[a]);
  }

  /** Two users with one order each: one section per user, in either order. */
  lemma TacoBurgerSplit(text: string)
    requires IsSplit([Order(2, "Bob", "Taco"), Order(1, "Alice", "Burger")], text)
    ensures text == SplitHeader + (SplitSection("Bob", [Order(2, "Bob", "Taco")]) + SplitSection("Alice", [Order(1, "Alice", "Burger")]))
         || text == SplitHeader + (SplitSection("Alice", [Order(1, "Alice", "Burger")]) + SplitSection("Bob", [Order(2, "Bob", "Taco")]))
  {
    TacoBurgerGroups();
    var groups := map["Bob" := [Order(2, "Bob", "Taco")], "Alice" := [Order(1, "Alice", "Burger")]];
    var users :| IsKeyOrder(users, groups.Keys) && text == SplitHeader + SplitBody(groups, users);
    KeyOrderOfTwo(users, "Bob", "Alice");
    SplitBodyOfTwo(groups, "Bob", "Alice");
    SplitBodyOfTwo(groups, "Alice", "Bob");
  }

  /**
   * Alice adds "burger" twice and collates: the name is capitalised, both
   * orders are counted under it and the plural is formed.
   */
  method TwoBurgersCollated() returns (collated: string)
    ensures collated == CollateHeader + "2 x Burgers\n"
  {
    var h := new RequestHandler({});
    SendAdd(h, "burger", 1, "Alice");
    SendAdd(h, "burger", 1, "Alice");
    CapitalisedItems();
    assert h.orders == [Order(1, "Alice", "Burger"), Order(1, "Alice", "Burger")];
    collated := SendCollate(h);
    BurgerCollation(collated);
  }

  /**
   * Bob adds a taco and Alice a burger; the split lists each user with their
   * item, in whichever order the user map yields them.
   */
  method SplitTwoUsers() returns (split: string)
    ensures split == SplitHeader + (SplitSection("Bob", [Order(2, "Bob", "Taco")]) + SplitSection("Alice", [Order(1, "Alice", "Burger")]))
         || split == SplitHeader + (SplitSection("Alice", [Order(1, "Alice", "Burger")]) + SplitSection("Bob", [Order(2, "Bob", "Taco")]))
  {
    var h := new RequestHandler({});
    SendAdd(h, "taco", 2, "Bob");
    SendAdd(h, "burger", 1, "Alice");
    CapitalisedItems();
    assert h.orders == [Order(2, "Bob", "Taco"), Order(1, "Alice", "Burger")];
    split := SendSplit(h);
    TacoBurgerSplit(split);
  }

  /**
   * The Shake Shack menu is shown as a photo each time it is asked for, and
   * recorded once.
   */
  method ShakeShackTwice() returns (first: Option<Photo>, second: Option<Photo>, seen: set<string>)
    ensures first == Some(MenuPhoto(7)) && second == Some(MenuPhoto(7))
    ensures seen == {MenuShakeShack}
  {
    var h := new RequestHandler({});
    SendMenu(h, MenuShakeShack, 7);
    first := h.photoMessage;
    SendMenu(h, MenuShakeShack, 7);
    second := h.photoMessage;
    seen := h.menuMap;
  }

  /** Any other menu name leaves all three results empty. */
  method UnknownMenu() returns (response: Option<string>, audio: Option<Voice>, photo: Option<Photo>)
    ensures response == None && audio == None && photo == None
  {
    var h := new RequestHandler({});
    SendMenu(h, "Burger King", 7);
    response, audio, photo := h.response, h.audioOrder, h.photoMessage;
  }

  /** A word that is no command sets the error text and then throws. */
  method UnknownCommand() returns (outcome: Outcome, response: Option<string>)
    ensures outcome == Crashed && response == Some(CommandErrorMessage)
  {
    var h := new RequestHandler({});
    assert "/help"[1..] == "help";
    outcome := h.Execute("/help", "/help", 1, "Alice", 7, NameView);
    response := h.response;
  }

  /** The command word is case-sensitive: `/Add` is not `/add`. */
  method CapitalisedCommand() returns (outcome: Outcome, orders: seq<Order>)
    ensures outcome == Crashed && orders == []
  {
    var h := new RequestHandler({});
    assert "/Add"[1..] == "Add";
    outcome := h.Execute("/Add", "/Add fries", 1, "Alice", 7, NameView);
    orders := h.orders;
  }
}
