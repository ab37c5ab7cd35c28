/**
 * The request handler: the shared order list, the cache of menus already
 * loaded, and the three result slots (text, voice, photo) that a command
 * fills. `Execute` routes one bot command to the operation it names.
 *
 * Loops over a HashMap's key set pick the next key with `:|`, so the model
 * commits to no iteration order; each such method reports the order it used
 * as a ghost value or through an `Is...` predicate of `Render`.
 */
module Handler {
  import opened Wrappers
  import opened Text
  import Commands
  import Orders
  import opened Render

  /** The one menu the handler can show. */
  const MenuShakeShack := "Shake Shack"

  /**
   * The voice message: empty as first constructed, or addressed to a chat and
   * carrying the JSON request whose synthesised audio it attaches.
   */
  datatype Voice = EmptyVoice | VoiceOrder(chatId: int, request: string)

  /** The photo message showing the menu image, addressed to a chat. */
  datatype Photo = MenuPhoto(chatId: int)

  /** Whether `execute` returned normally or threw. */
  datatype Outcome = Completed | Crashed

  /** Appends one `buildItemString` line per key of `counts`, in HashMap order. */
  method WriteItemLines(counts: map<string, nat>) returns (lines: string, ghost keys: seq<string>)
    ensures Orders.IsKeyOrder(keys, counts.Keys)
    ensures lines == ItemLines(keys, counts)
  {
    lines := "";
    keys := [];
    var remaining := counts.Keys;
    while remaining != {}
      invariant remaining <= counts.Keys
      invariant Orders.IsKeyOrder(keys, counts.Keys - remaining)
      invariant lines == ItemLines(keys, counts)
      decreases remaining
    {
      var key :| key in remaining;
      lines := lines + BuildItemString(key, counts[key]);
      assert (keys + [key])[..|keys|] == keys;
      keys := keys + [key];
      remaining := remaining - {key};
    }
  }

  /** Appends each order's name on a line of its own, in list order. */
  method WriteNameLines(orders: seq<Orders.Order>) returns (lines: string)
    ensures lines == NameLines(orders)
  {
    lines := "";
    var j := 0;
    while j < |orders|
      invariant 0 <= j <= |orders|
      invariant lines == NameLines(orders[..j])
    {
      assert orders[..j + 1][..j] == orders[..j];
      lines := lines + orders[j].name + "\n";
      j := j + 1;
    }
    assert orders[..j] == orders;
  }

  /**
   * For each user, in HashMap order, a heading and that user's item lines;
   * the per-user part of `addOrder`'s report.
   */
  method WriteSummaries(ordersByUser: map<string, seq<Orders.Order>>)
    returns (summaries: string, ghost users: seq<string>, ghost itemOrders: seq<seq<string>>)
    ensures IsSummaryOrder(ordersByUser, users, itemOrders)
    ensures summaries == SummaryBody(ordersByUser, users, itemOrders)
  {
    summaries := "";
    users := [];
    itemOrders := [];
    var remaining := ordersByUser.Keys;
    while remaining != {}
      invariant remaining <= ordersByUser.Keys
      invariant Orders.IsKeyOrder(users, ordersByUser.Keys - remaining)
      invariant ItemOrdersMatch(ordersByUser, users, itemOrders)
      invariant summaries == SummaryBody(ordersByUser, users, itemOrders)
      decreases remaining
    {
      var username :| username in remaining;
      var ordersByItem := Orders.LoadOrdersByItem(ordersByUser[username]);
      var lines;
      ghost var itemKeys;
      lines, itemKeys := WriteItemLines(ordersByItem);
      summaries := summaries + (username + " ordered:\n" + lines + "\n");
      SummaryBodySnoc(ordersByUser, users, itemOrders, username, itemKeys);
      users := users + [username];
      itemOrders := itemOrders + [itemKeys];
      remaining := remaining - {username};
    }
    assert ordersByUser.Keys - remaining == ordersByUser.Keys;
  }

  class RequestHandler {
    var orders: seq<Orders.Order>
    /** The names of the menus loaded so far; never emptied. */
    var menuMap: set<string>
    var response: Option<string>
    var audioOrder: Option<Voice>
    var photoMessage: Option<Photo>

    /** At most one of the three results is set. */
    ghost predicate AtMostOneResult()
      reads this
    {
      && (response.Some? ==> audioOrder.None? && photoMessage.None?)
      && (audioOrder.Some? ==> photoMessage.None?)
    }

    /**
     * Empties the order list and presets both the error text and an empty
     * voice message, so two results are set until the first setter runs. The
     * menu cache is class-wide and survives construction: `menusSeen` is what
     * it holds at that moment.
     */
    constructor (menusSeen: set<string>)
      ensures orders == [] && menuMap == menusSeen
      ensures response == Some(CommandErrorMessage) && audioOrder == Some(EmptyVoice) && photoMessage == None
      ensures !AtMostOneResult()
    {
      orders := [];
      menuMap := menusSeen;
      response := Some(CommandErrorMessage);
      audioOrder := Some(EmptyVoice);
      photoMessage := None;
    }

    method SetResponse(r: Option<string>)
      modifies this`response, this`audioOrder, this`photoMessage
      ensures response == r && audioOrder == None && photoMessage == None
      ensures AtMostOneResult()
    {
      response := r;
      audioOrder := None;
      photoMessage := None;
    }

    method SetAudio(audio: Option<Voice>)
      modifies this`response, this`audioOrder, this`photoMessage
      ensures audioOrder == audio && photoMessage == None && response == None
      ensures AtMostOneResult()
    {
      audioOrder := audio;
      photoMessage := None;
      response := None;
    }

    method SetPhoto(photo: Option<Photo>)
      modifies this`response, this`audioOrder, this`photoMessage
      ensures photoMessage == photo && audioOrder == None && response == None
      ensures AtMostOneResult()
    {
      photoMessage := photo;
      audioOrder := None;
      response := None;
    }

    /**
     * `addOrder`: stores the capitalised item, then reports the raw text and
     * every user's current item counts.
     */
    method AddOrder(text: string, userId: int, firstName: string) returns (report: string)
      modifies this`orders
      ensures orders == old(orders) + [Orders.Order(userId, firstName, Capitalize(text))]
      ensures IsAdditionReport(orders, firstName, text, report)
    {
      orders := orders + [Orders.Order(userId, firstName, Capitalize(text))];
      report := "`" + firstName + "` added 1 " + text + "!\n";
      report := report + "\n";
      var ordersByUser := LoadItemsByUser();
      var summaries;
      ghost var users, itemOrders;
      summaries, users, itemOrders := WriteSummaries(ordersByUser);
      report := report + summaries;
    }

    /** `clearOrders`: forgets every order; the menu cache is kept. */
    method ClearOrders() returns (message: string)
      modifies this`orders
      ensures orders == [] && message == ClearedMessage
    {
      orders := [];
      message := ClearedMessage;
    }

    /** `viewOrders`: one view line per order, in insertion order. */
    method ViewOrders(view: Orders.Order -> string) returns (text: string)
      ensures text == ViewText(orders, view)
    {
      if orders == [] {
        return NoOrdersMessage;
      }
      text := ViewHeader;
      var i := 0;
      while i < |orders|
        invariant 0 <= i <= |orders|
        invariant text == ViewHeader + ViewLines(orders[..i], view)
      {
        assert orders[..i + 1][..i] == orders[..i];
        text := text + view(orders[i]) + "\n";
        i := i + 1;
      }
      assert orders[..i] == orders;
    }

    /** `collateOrders`: one item line per distinct item, over all users. */
    method CollateOrders() returns (text: string)
      ensures IsCollation(orders, text)
    {
      if orders == [] {
        return NoOrdersMessage;
      }
      var result := Orders.LoadOrdersByItem(orders);
      var lines;
      ghost var keys;
      lines, keys := WriteItemLines(result);
      text := CollateHeader + lines;
    }

    /** `splitOrdersByUser`: per user, the names of their orders and a zero total. */
    method SplitOrdersByUser() returns (text: string)
      ensures IsSplit(orders, text)
    {
      var result := LoadItemsByUser();
      text := SplitHeader;
      var remaining := result.Keys;
      ghost var users: seq<string> := [];
      while remaining != {}
        invariant remaining <= result.Keys
        invariant Orders.IsKeyOrder(users, result.Keys - remaining)
        invariant text == SplitHeader + SplitBody(result, users)
        decreases remaining
      {
        var userName :| userName in remaining;
        var ordersByUser := result[userName];
        ghost var before := text;
        var names := WriteNameLines(ordersByUser);
        text := text + (userName + " ordered:\n" + names + SplitTotal + "\n" + "\n");
        assert text == before + SplitSection(userName, ordersByUser);
        AppendAssociative(SplitHeader, SplitBody(result, users), SplitSection(userName, ordersByUser));
        assert (users + [userName])[..|users|] == users;
        assert SplitBody(result, users + [userName]) == SplitBody(result, users) + SplitSection(userName, ordersByUser);
        users := users + [userName];
        remaining := remaining - {userName};
      }
      assert result.Keys - remaining == result.Keys;
    }

    /** `loadItemsByUser`: one pass over the orders, appending each to its user's list. */
    method LoadItemsByUser() returns (result: map<string, seq<Orders.Order>>)
      ensures result == Orders.UserGroups(orders)
    {
      result := map[];
      var i := 0;
      while i < |orders|
        invariant 0 <= i <= |orders|
        invariant result == Orders.UserGroups(orders[..i])
      {
        var order := orders[i];
        Orders.UserGroupsStep(orders, i);
        if order.userName in result {
          result := result[order.userName := result[order.userName] + [order]];
        } else {
          result := result[order.userName := [order]];
        }
        i := i + 1;
      }
      assert orders[..i] == orders;
    }

    /**
     * `loadMenu`: only "Shake Shack" is known; it is recorded in the cache the
     * first time and a photo for the chat is produced. Any other name gives no
     * photo and changes nothing.
     */
    method LoadMenu(menuName: string, chatId: int) returns (photo: Option<Photo>)
      modifies this`menuMap
      ensures menuName != MenuShakeShack ==> photo == None && menuMap == old(menuMap)
      ensures menuName == MenuShakeShack ==> photo == Some(MenuPhoto(chatId)) && menuMap == old(menuMap) + {menuName}
    {
      if menuName != MenuShakeShack {
        return None;
      }
      if menuName !in menuMap {
        menuMap := menuMap + {menuName};
      }
      photo := Some(MenuPhoto(chatId));
    }

    /** `convertOrdersToJson`: the speech script over the item counts, as a JSON body. */
    method ConvertOrdersToJson() returns (payload: string)
      ensures IsTtsPayload(orders, payload)
    {
      var collated := Orders.LoadOrdersByItem(orders);
      var script := ScriptOpening + "\n";
      script := script + ScriptRequest;
      ghost var head := script;
      var remaining := collated.Keys;
      ghost var keys: seq<string> := [];
      while remaining != {}
        invariant remaining <= collated.Keys
        invariant Orders.IsKeyOrder(keys, collated.Keys - remaining)
        invariant script == head + ScriptLines(keys, collated)
        decreases remaining
      {
        var key :| key in remaining;
        ghost var lines := ScriptLines(keys, collated);
        var line := NatToString(collated[key]) + " " + key + "\n";
        script := script + line;
        assert (keys + [key])[..|keys|] == keys;
        assert ScriptLines(keys + [key], collated) == lines + line;
        AppendAssociative(head, lines, line);
        keys := keys + [key];
        remaining := remaining - {key};
      }
      assert collated.Keys - remaining == collated.Keys;
      assert script + ScriptClosing + "\n" == Script(keys, collated);
      script := script + ScriptClosing + "\n";
      payload := "{\"text\":\"" + ReplaceAll(script, '\n', BreakTag) + "\"}";
    }

    /** `ttsOrder`: a voice message for the chat carrying the speech request. */
    method TtsOrder(chatId: int) returns (voice: Voice)
      ensures voice.VoiceOrder? && voice.chatId == chatId
      ensures IsTtsPayload(orders, voice.request)
    {
      var payload := ConvertOrdersToJson();
      voice := VoiceOrder(chatId, payload);
    }

    /**
     * What running `command` on the argument `text` leaves behind, given the
     * orders and menu cache before it: the menu cache only grows, at most one
     * result is set, and each command has the effect and result below.
     */
    ghost predicate CommandEffect(command: Commands.Command, text: string, userId: int, firstName: string,
                                  chatId: int, view: Orders.Order -> string, oldOrders: seq<Orders.Order>, oldMenus: set<string>)
      reads this
    {
      && oldMenus <= menuMap
      && AtMostOneResult()
      && match command
         case Add =>
           && orders == oldOrders + [Orders.Order(userId, firstName, Capitalize(text))]
           && menuMap == oldMenus
           && response.Some? && IsAdditionReport(orders, firstName, text, response.value)
         case Clear =>
           orders == [] && menuMap == oldMenus && response == Some(ClearedMessage)
         case View =>
           orders == oldOrders && menuMap == oldMenus && response == Some(ViewText(orders, view))
         case Collate =>
           && orders == oldOrders && menuMap == oldMenus
           && response.Some? && IsCollation(orders, response.value)
         case Split =>
           && orders == oldOrders && menuMap == oldMenus
           && response.Some? && IsSplit(orders, response.value)
         case Order =>
           && orders == oldOrders && menuMap == oldMenus
           && audioOrder.Some? && audioOrder.value.VoiceOrder? && audioOrder.value.chatId == chatId
           && IsTtsPayload(orders, audioOrder.value.request)
         case Menu =>
           && orders == oldOrders && response == None && audioOrder == None
           && (text == MenuShakeShack ==> photoMessage == Some(MenuPhoto(chatId)) && menuMap == oldMenus + {MenuShakeShack})
           && (text != MenuShakeShack ==> photoMessage == None && menuMap == oldMenus)
    }

    /**
     * The `switch` of `execute`: runs a recognised command on its argument text
     * and stores the result through the setter for its kind.
     */
    method Dispatch(command: Commands.Command, text: string, userId: int, firstName: string, chatId: int,
                    view: Orders.Order -> string)
      modifies this
      ensures CommandEffect(command, text, userId, firstName, chatId, view, old(orders), old(menuMap))
    {
      match command {
        case Add =>
          var result := AddOrder(text, userId, firstName);
          SetResponse(Some(result));
        case Clear =>
          var result := ClearOrders();
          SetResponse(Some(result));
        case View =>
          var result := ViewOrders(view);
          SetResponse(Some(result));
        case Collate =>
          var result := CollateOrders();
          SetResponse(Some(result));
        case Menu =>
          var photo := LoadMenu(text, chatId);
          SetPhoto(photo);
        case Split =>
          var result := SplitOrdersByUser();
          SetResponse(Some(result));
        case Order =>
          var audioMessage := TtsOrder(chatId);
          SetAudio(Some(audioMessage));
      }
    }

    /**
     * The part of `execute` after parsing: an unknown command sets the error
     * text and then makes `switch` throw on `null`; a recognised one runs.
     */
    method RunCommand(command: Option<Commands.Command>, text: string, userId: int, firstName: string, chatId: int,
                      view: Orders.Order -> string) returns (outcome: Outcome)
      modifies this
      ensures outcome == Completed <==> command.Some?
      ensures command.None? ==>
        && orders == old(orders) && menuMap == old(menuMap)
        && response == Some(CommandErrorMessage) && audioOrder == None && photoMessage == None
      ensures command.Some? ==> CommandEffect(command.value, text, userId, firstName, chatId, view, old(orders), old(menuMap))
    {
      if command == None {
        SetResponse(Some(CommandErrorMessage));
        return Crashed;
      }
      Dispatch(command.value, text, userId, firstName, chatId, view);
      outcome := Completed;
    }

    /**
     * `execute`: parses the command entity, strips the command word from the
     * message text and runs the command. An empty entity makes `substring(1)`
     * throw before anything changes; an unknown command sets the error text
     * and then makes `switch` throw on `null`.
     */
    method Execute(entityText: string, messageText: string, userId: int, firstName: string, chatId: int,
                   view: Orders.Order -> string) returns (outcome: Outcome)
      modifies this
      ensures old(menuMap) <= menuMap
      ensures outcome == Completed <==> |entityText| > 0 && Commands.ParseCommand(entityText).Some?
      ensures |entityText| == 0 ==>
        && orders == old(orders) && menuMap == old(menuMap)
        && response == old(response) && audioOrder == old(audioOrder) && photoMessage == old(photoMessage)
      ensures |entityText| > 0 && Commands.ParseCommand(entityText).None? ==>
        && orders == old(orders) && menuMap == old(menuMap)
        && response == Some(CommandErrorMessage) && audioOrder == None && photoMessage == None
      ensures |entityText| > 0 && Commands.ParseCommand(entityText).Some? ==>
        CommandEffect(Commands.ParseCommand(entityText).value, Commands.RemoveFirstWord(messageText),
                      userId, firstName, chatId, view, old(orders), old(menuMap))
    {
      if |entityText| == 0 {
        return Crashed;
      }
      var command := Commands.ParseCommand(entityText);
      var text := Commands.RemoveFirstWord(messageText);
      outcome := RunCommand(command, text, userId, firstName, chatId, view);
    }
  }
}
