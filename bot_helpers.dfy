/**
 * The pure helpers of the Telegram customer-service bot: phone masking, the
 * user-info line shown to admins, the `admin_<id>` callback tag, the admin
 * table read from the configuration, the admin keyboard and admin-name lookup.
 */
module SupportBot {
  import opened Wrappers
  import opened PyInt

  // ---------------------------------------------------------------- phones

  /**
   * Masks a phone number for display to an admin: the number as it is, or its
   * last four characters behind `****` (see `MaskPhoneShape`).
   */
  function MaskPhone(phone: string): (r: string)
    ensures r == phone || (|phone| >= 7 && |r| >= 11 && r[|r| - 8..|r| - 4] == "****" && r[|r| - 4..] == phone[|phone| - 4..])
  {
    if |phone| < 7 then phone
    else if phone[0] == '+' then
      if |phone| >= 11 then phone[..5] + "****" + phone[|phone| - 4..] else phone
    else phone[..3] + "****" + phone[|phone| - 4..]
  }

  /**
   * Numbers shorter than seven characters, and international numbers shorter than
   * eleven, are shown as they are; a longer international number keeps its first
   * five and last four characters, a domestic one its first three and last four,
   * with four asterisks between.
   */
  lemma MaskPhoneShape(phone: string)
    ensures var r := MaskPhone(phone);
      && (|phone| < 7 ==> r == phone)
      && (|phone| >= 7 && phone[0] == '+' && |phone| < 11 ==> r == phone)
      && (|phone| >= 11 && phone[0] == '+' ==>
            |r| == 13 && r[..5] == phone[..5] && r[5..9] == "****" && r[9..] == phone[|phone| - 4..])
      && (|phone| >= 7 && phone[0] != '+' ==>
            |r| == 11 && r[..3] == phone[..3] && r[3..7] == "****" && r[7..] == phone[|phone| - 4..])
  {
  }

  /** Masking an already masked number changes nothing. */
  lemma MaskPhoneIdempotent(phone: string)
    ensures MaskPhone(MaskPhone(phone)) == MaskPhone(phone)
  {
    var r := MaskPhone(phone);
    if |phone| >= 11 && phone[0] == '+' {
      assert r[0] == phone[0];
      assert r == r[..5] + r[5..9] + r[9..];
    } else if |phone| >= 7 && phone[0] != '+' {
      assert r[0] == phone[0];
      assert r == r[..3] + r[3..7] + r[7..];
    }
  }

  /**
   * The two numbers of the bot's own phone-masking test: the domestic one is
   * masked as the test expects; the international one keeps five characters,
   * not the six (`+86138****5678`) the test expects.
   */
  lemma MaskPhoneExamples()
    ensures MaskPhone("13812345678") == "138****5678"
    ensures MaskPhone("+8613812345678") == "+8613****5678"
    ensures MaskPhone("+8613812345678") != "+86138****5678"
    ensures MaskPhone("123") == "123" && MaskPhone("") == ""
  {
    MaskDomesticExample();
    MaskInternationalExample();
  }

  lemma MaskDomesticExample()
    ensures MaskPhone("13812345678") == "138****5678"
  {
  }

  lemma MaskInternationalExample()
    ensures MaskPhone("+8613812345678") == "+8613****5678"
  {
  }

  // ------------------------------------------------------------- user info

  /** Python truthiness of an optional string: present and non-empty. */
  predicate Filled(s: Option<string>) {
    s.Some? && s.value != ""
  }

  const UserIdLabel: string := "[用户ID] "
  const ContactLabel: string := "\n联系方式: "

  function UserHeader(userId: int): string {
    UserIdLabel + IntToString(userId)
  }

  /** ` @username`, when the user has a username. */
  function NamePart(username: Option<string>): string {
    if Filled(username) then " @" + username.value else ""
  }

  /** The contact line with the masked number, when a phone number is known. */
  function ContactPart(phone: Option<string>): string {
    if Filled(phone) then ContactLabel + MaskPhone(phone.value) else ""
  }

  /**
   * The user description sent to admins: the user id, then ` @username` when
   * the user has a username, then a contact line with the masked phone number
   * when a phone number is known.
   */
  function UserInfo(userId: int, username: Option<string>, phone: Option<string>): (r: string)
    ensures UserHeader(userId) <= r
  {
    UserHeader(userId) + NamePart(username) + ContactPart(phone)
  }

  /** The description starts with the user id line, and is only that without username or phone. */
  lemma UserInfoStartsWithId(userId: int, username: Option<string>, phone: Option<string>)
    ensures var r, h := UserInfo(userId, username, phone), UserHeader(userId);
      && |h| <= |r| && r[..|h|] == h
      && (!Filled(username) && !Filled(phone) ==> r == h)
  {
    ThreeParts(UserHeader(userId), NamePart(username), ContactPart(phone));
  }

  /**
   * A username follows the id line as ` @username`; without one, the contact
   * part, if any, follows the id line directly.
   */
  lemma UserInfoNamesUser(userId: int, username: Option<string>, phone: Option<string>)
    ensures Filled(username) ==>
      var r, h := UserInfo(userId, username, phone), |UserHeader(userId)|;
      h + 2 + |username.value| <= |r| && r[h..h + 2 + |username.value|] == " @" + username.value
    ensures !Filled(username) ==> UserInfo(userId, username, phone) == UserHeader(userId) + ContactPart(phone)
  {
    ThreeParts(UserHeader(userId), NamePart(username), ContactPart(phone));
  }

  /**
   * A phone number is shown masked, on a contact line at the end; without one,
   * the description ends after the username part, and has no contact line.
   */
  lemma UserInfoEndsWithContact(userId: int, username: Option<string>, phone: Option<string>)
    ensures Filled(phone) ==>
      var r, c := UserInfo(userId, username, phone), ContactLabel + MaskPhone(phone.value);
      |c| <= |r| && r[|r| - |c|..] == c
    ensures !Filled(phone) ==> UserInfo(userId, username, phone) == UserHeader(userId) + NamePart(username)
  {
    ThreeParts(UserHeader(userId), NamePart(username), ContactPart(phone));
  }

  /** Where each part of a three-part concatenation sits. */
  lemma ThreeParts<T>(a: seq<T>, b: seq<T>, c: seq<T>)
    ensures var s := a + b + c;
      && |s| == |a| + |b| + |c|
      && s[..|a|] == a && s[|a|..|a| + |b|] == b && s[|a| + |b|..] == c
      && (b == [] && c == [] ==> s == a)
  {
    var s := a + b + c;
    assert s[..|a|] == a;
    assert s[|a|..|a| + |b|] == b;
    assert s[|a| + |b|..] == c;
  }

  // ---------------------------------------------------------- callback tags

  const AdminTagPrefix: string := "admin_"

  /** The callback data of the keyboard button that selects an admin. */
  function AdminTag(adminId: int): string {
    AdminTagPrefix + IntToString(adminId)
  }

  /**
   * A tag is the prefix, then text without a further underscore, so that
   * splitting at `_` isolates the id.
   */
  lemma AdminTagShape(adminId: int)
    ensures var r := AdminTag(adminId);
      && |AdminTagPrefix| < |r| && r[..|AdminTagPrefix|] == AdminTagPrefix
      && '_' !in r[|AdminTagPrefix|..]
  {
    var r := AdminTag(adminId);
    assert r[|AdminTagPrefix|..] == IntToString(adminId);
  }

  /** The first position of `c` in `s`, as `str.find` gives it. */
  function IndexOf(s: string, c: char): (r: Option<nat>)
    ensures r.None? ==> c !in s
    ensures r.Some? ==> r.value < |s| && s[r.value] == c && c !in s[..r.value]
  {
    if s == [] then None
    else if s[0] == c then Some(0)
    else match IndexOf(s[1..], c)
      case None => None
      case Some(i) => assert s[..i + 1] == [s[0]] + s[1..][..i]; Some(i + 1)
  }

  /** The parts of `s` joined back with `sep` between them. */
  function Join(parts: seq<string>, sep: char): string
    requires |parts| >= 1
  {
    if |parts| == 1 then parts[0] else parts[0] + [sep] + Join(parts[1..], sep)
  }

  /** Python's `s.split(sep)` for a one-character separator. */
  function Split(s: string, sep: char): (parts: seq<string>)
    ensures |parts| >= 1 && Join(parts, sep) == s
    ensures forall k :: 0 <= k < |parts| ==> sep !in parts[k]
    decreases |s|
  {
    match IndexOf(s, sep)
    case None => [s]
    case Some(i) =>
      var rest := Split(s[i + 1..], sep);
      assert s == s[..i] + [sep] + s[i + 1..];
      [s[..i]] + rest
  }

  /** What the bot does with the data of a pressed button. */
  datatype Choice =
    | NotAnAdminTag          // the handler ignores the button
    | BadAdminId             // `int()` raises ValueError and the handler stops
    | AdminChosen(adminId: int)

  /**
   * Data that starts with `admin_` selects the admin whose id is the text
   * between the first and the second underscore.
   */
  function ParseChoice(data: string): (r: Choice)
    ensures r != NotAnAdminTag <==> |data| >= 6 && data[..6] == AdminTagPrefix
  {
    if |data| >= 6 && data[..6] == AdminTagPrefix then
      var parts := Split(data, '_');
      assert data[5] == '_';
      match ParseInt(parts[1])
      case None => BadAdminId
      case Some(id) => AdminChosen(id)
    else NotAnAdminTag
  }

  /** Every admin tag the keyboard carries selects the admin it was made for. */
  lemma ParseChoiceOfAdminTag(adminId: int)
    ensures ParseChoice(AdminTag(adminId)) == AdminChosen(adminId)
  {
    var digits := IntToString(adminId);
    var tag := AdminTag(adminId);
    assert tag[..6] == AdminTagPrefix;
    assert tag[..5] == "admin" && tag[5] == '_';
    assert IndexOf(tag, '_') == Some(5);
    assert tag[6..] == digits;
    assert IndexOf(digits, '_') == None;
    assert Split(digits, '_') == [digits];
    assert Split(tag, '_') == [tag[..5]] + Split(tag[6..], '_');
    ParseIntOfIntToString(adminId);
  }

  // ------------------------------------------------------------ admin table

  /** The `[ADMINS]` section of the configuration: names with their raw values. */
  type ConfigEntries = seq<(string, string)>

  /** The admin table: names with their Telegram ids, in insertion order. */
  type Admins = seq<(string, int)>

  predicate DistinctNames(d: Admins) {
    forall i, j :: 0 <= i < j < |d| ==> d[i].0 != d[j].0
  }

  /** The position of `name` in the admin table, if it is there. */
  function KeyIndex(d: Admins, name: string): (r: Option<nat>)
    ensures r.None? ==> forall k :: 0 <= k < |d| ==> d[k].0 != name
    ensures r.Some? ==> r.value < |d| && d[r.value].0 == name
  {
    if d == [] then None
    else if d[0].0 == name then Some(0)
    else match KeyIndex(d[1..], name)
      case None => None
      case Some(k) => Some(k + 1)
  }

  /**
   * Python's `d[name] = id` on a dict kept as its item list: an existing entry
   * keeps its place and takes the new value, a new name goes to the end.
   */
  function DictSet(d: Admins, name: string, id: int): (r: Admins)
    ensures |d| <= |r| <= |d| + 1
    ensures (forall k :: 0 <= k < |d| ==> d[k].0 != name) ==> r == d + [(name, id)]
    ensures forall k :: 0 <= k < |d| && d[k].0 != name ==> r[k] == d[k]
    ensures forall k :: 0 <= k < |r| ==> (k < |d| && r[k] == d[k]) || r[k] == (name, id)
    ensures exists k :: 0 <= k < |r| && r[k] == (name, id)
    ensures DistinctNames(d) ==> DistinctNames(r)
  {
    match KeyIndex(d, name)
    case None =>
      var r := d + [(name, id)];
      assert r[|d|] == (name, id);
      r
    case Some(k) =>
      var r := d[k := (name, id)];
      assert r[k] == (name, id);
      r
  }

  /** One step of the parsing loop: an entry whose value is an integer is stored. */
  function Admit(d: Admins, entry: (string, string)): Admins {
    match ParseInt(entry.1)
    case None => d
    case Some(id) => DictSet(d, entry.0, id)
  }

  /** The admin table built from the configuration entries, in order. */
  function AdminsFrom(entries: ConfigEntries): Admins {
    if entries == [] then [] else Admit(AdminsFrom(entries[..|entries| - 1]), entries[|entries| - 1])
  }

  function AdminsOf(section: Option<ConfigEntries>): Admins {
    match section
    case None => []
    case Some(entries) => AdminsFrom(entries)
  }

  /**
   * Reads the admin table: every entry of the `[ADMINS]` section whose value
   * `int()` accepts, and none when the section is missing.
   */
  method ParseAdmins(section: Option<ConfigEntries>) returns (admins: Admins)
    ensures admins == AdminsOf(section)
  {
    admins := [];
    if section.Some? {
      var entries := section.value;
      var i := 0;
      while i < |entries|
        invariant 0 <= i <= |entries|
        invariant admins == AdminsFrom(entries[..i])
      {
        var (name, value) := entries[i];
        assert entries[..i + 1][..i] == entries[..i];
        var parsed := ParseInt(value);
        if parsed.Some? {
          admins := DictSet(admins, name, parsed.value);
        }
        assert admins == Admit(AdminsFrom(entries[..i]), entries[i]);
        i := i + 1;
      }
      assert entries[..i] == entries;
    }
  }

  predicate DistinctEntryNames(entries: ConfigEntries) {
    forall i, j :: 0 <= i < j < |entries| ==> entries[i].0 != entries[j].0
  }

  /** The entries whose value is an integer, with that integer, in order. */
  function ValidEntries(entries: ConfigEntries): (r: Admins)
    ensures |r| <= |entries|
  {
    if entries == [] then [] else ValidEntries(entries[..|entries| - 1]) + Kept(entries[|entries| - 1])
  }

  /** The admin an entry contributes when its value is an integer. */
  function Kept(entry: (string, string)): (r: Admins)
    ensures |r| <= 1
  {
    match ParseInt(entry.1)
    case None => []
    case Some(id) => [(entry.0, id)]
  }

  /** Every entry whose value is an integer is among the valid entries. */
  lemma {:induction false} ValidEntriesComplete(entries: ConfigEntries, k: nat)
    requires k < |entries| && ParseInt(entries[k].1).Some?
    ensures (entries[k].0, ParseInt(entries[k].1).value) in ValidEntries(entries)
  {
    var n := |entries| - 1;
    var init := entries[..n];
    var admin := (entries[k].0, ParseInt(entries[k].1).value);
    assert ValidEntries(entries) == ValidEntries(init) + Kept(entries[n]);
    if k < n {
      assert init[k] == entries[k];
      ValidEntriesComplete(init, k);
      assert admin in ValidEntries(init);
    } else {
      KeptParsed(entries[n]);
    }
  }

  lemma KeptParsed(entry: (string, string))
    requires ParseInt(entry.1).Some?
    ensures Kept(entry) == [(entry.0, ParseInt(entry.1).value)]
  {
  }

  /** Every valid entry comes from an entry of the configuration whose value is that integer. */
  lemma {:induction false} ValidEntriesSound(entries: ConfigEntries, name: string, id: int)
    requires (name, id) in ValidEntries(entries)
    ensures exists k :: 0 <= k < |entries| && entries[k].0 == name && ParseInt(entries[k].1) == Some(id)
  {
    var n := |entries| - 1;
    var init := entries[..n];
    if (name, id) in ValidEntries(init) {
      ValidEntriesSound(init, name, id);
      var k :| 0 <= k < |init| && init[k].0 == name && ParseInt(init[k].1) == Some(id);
      assert entries[k] == init[k];
    } else {
      assert entries[n].0 == name && ParseInt(entries[n].1) == Some(id);
    }
  }

  /** The admin table never holds a name twice. */
  lemma {:induction false} AdminsFromDistinct(entries: ConfigEntries)
    ensures DistinctNames(AdminsFrom(entries))
  {
    if entries != [] {
      AdminsFromDistinct(entries[..|entries| - 1]);
    }
  }

  /** A name no entry carries never enters the admin table. */
  lemma {:induction false} AdminsFromOnlyConfiguredNames(entries: ConfigEntries, name: string)
    requires forall j :: 0 <= j < |entries| ==> entries[j].0 != name
    ensures forall k :: 0 <= k < |AdminsFrom(entries)| ==> AdminsFrom(entries)[k].0 != name
  {
    if entries != [] {
      var init := entries[..|entries| - 1];
      assert forall j :: 0 <= j < |init| ==> init[j] == entries[j];
      AdminsFromOnlyConfiguredNames(init, name);
    }
  }

  /**
   * With the distinct option names the configuration file has, the admin table
   * is exactly the entries whose value is an integer, in file order: the others
   * are skipped.
   */
  lemma {:induction false} AdminsFromKeepsValidEntries(entries: ConfigEntries)
    requires DistinctEntryNames(entries)
    ensures AdminsFrom(entries) == ValidEntries(entries)
  {
    if entries != [] {
      var n := |entries| - 1;
      var init := entries[..n];
      assert forall j :: 0 <= j < |init| ==> init[j] == entries[j];
      AdminsFromKeepsValidEntries(init);
      AdminsFromOnlyConfiguredNames(init, entries[n].0);
      AdmitNewName(AdminsFrom(init), entries[n]);
    }
  }

  /** Admitting an entry under a name the table lacks appends what the entry contributes. */
  lemma AdmitNewName(d: Admins, entry: (string, string))
    requires forall k :: 0 <= k < |d| ==> d[k].0 != entry.0
    ensures Admit(d, entry) == d + Kept(entry)
  {
  }

  // -------------------------------------------------------------- keyboard

  /** A button of the admin keyboard: the admin's name and its callback tag. */
  datatype Button = Button(text: string, callbackData: string)

  function AdminButton(admin: (string, int)): Button {
    Button(admin.0, AdminTag(admin.1))
  }

  /** One button per admin, in the table's order. */
  function Buttons(admins: Admins): seq<Button> {
    seq(|admins|, k requires 0 <= k < |admins| => AdminButton(admins[k]))
  }

  function Flatten<T>(rows: seq<seq<T>>): seq<T> {
    if rows == [] then [] else Flatten(rows[..|rows| - 1]) + rows[|rows| - 1]
  }

  /**
   * The admin keyboard: one button per admin in table order, three to a row,
   * the last row holding what is left.
   */
  method AdminKeyboard(admins: Admins) returns (keyboard: seq<seq<Button>>)
    ensures |keyboard| == (|admins| + 2) / 3
    ensures forall r :: 0 <= r < |keyboard| ==> 1 <= |keyboard[r]| <= 3
    ensures forall r :: 0 <= r < |keyboard| - 1 ==> |keyboard[r]| == 3
    ensures RowsFollow(keyboard, Buttons(admins))
    ensures Flatten(keyboard) == Buttons(admins)
  {
    ghost var buttons := Buttons(admins);
    assert |buttons| == |admins|;
    keyboard := [];
    var row: seq<Button> := [];
    var i := 0;
    while i < |admins|
      invariant i <= |admins|
      invariant PartialKeyboard(buttons, keyboard, row, i)
    {
      var button := AdminButton(admins[i]);
      assert button == buttons[i];
      StepKeyboard(buttons, keyboard, row, i);
      row := row + [button];
      if (i + 1) % 3 == 0 {
        keyboard := keyboard + [row];
        row := [];
      }
      i := i + 1;
    }
    FinishKeyboard(buttons, keyboard, row);
    if row != [] {
      keyboard := keyboard + [row];
    }
  }

  /** The loop's state after `i` buttons: full rows of three, then the row being filled. */
  ghost predicate PartialKeyboard<T>(buttons: seq<T>, keyboard: seq<seq<T>>, row: seq<T>, i: nat) {
    && i == 3 * |keyboard| + |row| <= |buttons| && |row| < 3
    && (forall r :: 0 <= r < |keyboard| ==> |keyboard[r]| == 3)
    && RowsFollow(keyboard, buttons)
    && row == buttons[3 * |keyboard| .. i]
  }

  /** One turn of the loop: the next button joins the row, which is pushed once it holds three. */
  lemma StepKeyboard<T>(buttons: seq<T>, keyboard: seq<seq<T>>, row: seq<T>, i: nat)
    requires i < |buttons| && PartialKeyboard(buttons, keyboard, row, i)
    ensures var next := row + [buttons[i]];
      if (i + 1) % 3 == 0 then PartialKeyboard(buttons, keyboard + [next], [], i + 1)
      else PartialKeyboard(buttons, keyboard, next, i + 1)
  {
    var next := row + [buttons[i]];
    ExtendRow(buttons, 3 * |keyboard|, i, row);
    RowIsFull(i + 1, |keyboard|, |next|);
    if (i + 1) % 3 == 0 {
      PushRow(buttons, keyboard, next, i + 1);
    }
  }

  /** After the last button, pushing the unfinished row completes the keyboard. */
  lemma FinishKeyboard<T>(buttons: seq<T>, keyboard: seq<seq<T>>, row: seq<T>)
    requires PartialKeyboard(buttons, keyboard, row, |buttons|)
    ensures var done := if row != [] then keyboard + [row] else keyboard;
      && |done| == (|buttons| + 2) / 3
      && (forall r :: 0 <= r < |done| ==> 1 <= |done[r]| <= 3)
      && (forall r :: 0 <= r < |done| - 1 ==> |done[r]| == 3)
      && RowsFollow(done, buttons)
      && Flatten(done) == buttons
  {
    var done := if row != [] then keyboard + [row] else keyboard;
    RowCount(|buttons|, |keyboard|, |row|);
    if row != [] {
      PushRow(buttons, keyboard, row, |buttons|);
    }
    FlattenRows(done, buttons);
  }

  /** `n` buttons cut into `full` rows of three and a last row of `rest` make `(n + 2) / 3` rows. */
  lemma RowCount(n: nat, full: nat, rest: nat)
    requires n == 3 * full + rest && rest < 3
    ensures (n + 2) / 3 == if rest == 0 then full else full + 1
  {
  }

  lemma ExtendRow<T>(buttons: seq<T>, start: nat, i: nat, row: seq<T>)
    requires start <= i < |buttons| && row == buttons[start .. i]
    ensures row + [buttons[i]] == buttons[start .. i + 1]
  {
  }

  /** Row `r` of the keyboard holds the buttons from position `3 * r` on. */
  ghost predicate RowsFollow<T>(keyboard: seq<seq<T>>, buttons: seq<T>) {
    forall r :: 0 <= r < |keyboard| ==>
      3 * r + |keyboard[r]| <= |buttons| && keyboard[r] == buttons[3 * r .. 3 * r + |keyboard[r]|]
  }

  /** Appending the next slice of buttons as a row keeps every row a slice of them. */
  lemma {:induction false} PushRow<T>(buttons: seq<T>, keyboard: seq<seq<T>>, row: seq<T>, end: nat)
    requires end == 3 * |keyboard| + |row| <= |buttons|
    requires RowsFollow(keyboard, buttons)
    requires row == buttons[3 * |keyboard| .. end]
    ensures RowsFollow(keyboard + [row], buttons)
  {
    var next := keyboard + [row];
    forall r | 0 <= r < |next|
      ensures 3 * r + |next[r]| <= |buttons| && next[r] == buttons[3 * r .. 3 * r + |next[r]|]
    {
      if r < |keyboard| {
        assert next[r] == keyboard[r];
      }
    }
  }

  /**
   * Rows that are consecutive slices of the buttons, every one but the last full,
   * put back together give the buttons they were cut from.
   */
  lemma {:induction false} FlattenRows<T>(keyboard: seq<seq<T>>, buttons: seq<T>)
    requires RowsFollow(keyboard, buttons)
    requires forall r :: 0 <= r < |keyboard| - 1 ==> |keyboard[r]| == 3
    ensures keyboard != [] ==>
      Flatten(keyboard) == buttons[..3 * (|keyboard| - 1) + |keyboard[|keyboard| - 1]|]
  {
    if |keyboard| > 1 {
      var n := |keyboard| - 1;
      var init := keyboard[..n];
      assert RowsFollow(init, buttons) by {
        forall r | 0 <= r < |init|
          ensures 3 * r + |init[r]| <= |buttons| && init[r] == buttons[3 * r .. 3 * r + |init[r]|]
        {
          assert init[r] == keyboard[r];
        }
      }
      FlattenRows(init, buttons);
      assert init[n - 1] == keyboard[n - 1];
      assert buttons[..3 * n + |keyboard[n]|] == buttons[..3 * n] + keyboard[n];
    } else if |keyboard| == 1 {
      assert keyboard[..0] == [];
    }
  }

  /** The source's test `(i + 1) % 3 == 0` holds exactly when the current row is full. */
  lemma RowIsFull(count: nat, rows: nat, width: nat)
    requires count == 3 * rows + width && 1 <= width <= 3
    ensures count % 3 == 0 <==> width == 3
  {
  }

  /**
   * Pressing the button in row `r`, column `c` of the keyboard selects the admin
   * listed at position `3 * r + c` of the table.
   */
  lemma {:induction false} KeyboardButtonSelectsItsAdmin(admins: Admins, keyboard: seq<seq<Button>>, r: nat, c: nat)
    requires RowsFollow(keyboard, Buttons(admins))
    requires r < |keyboard| && c < |keyboard[r]|
    ensures 3 * r + c < |admins|
    ensures ParseChoice(keyboard[r][c].callbackData) == AdminChosen(admins[3 * r + c].1)
  {
    var buttons := Buttons(admins);
    var k := 3 * r + c;
    RowEntry(keyboard, buttons, r, c);
    assert keyboard[r][c].callbackData == AdminTag(admins[k].1);
    ParseChoiceOfAdminTag(admins[k].1);
  }

  /** Column `c` of row `r` is button `3 * r + c`. */
  lemma RowEntry<T>(keyboard: seq<seq<T>>, buttons: seq<T>, r: nat, c: nat)
    requires RowsFollow(keyboard, buttons)
    requires r < |keyboard| && c < |keyboard[r]|
    ensures 3 * r + c < |buttons| && keyboard[r][c] == buttons[3 * r + c]
  {
    assert keyboard[r] == buttons[3 * r .. 3 * r + |keyboard[r]|];
  }

  // ------------------------------------------------------------ name lookup

  /** The name shown when the callback selects an id that is not in the table. */
  const UnknownAdminName: string := "未知管理员"
  /** The name shown to a user when the replying admin's id is not in the table. */
  const GenericAdminName: string := "管理员"

  /**
   * The name of the first admin in table order whose id is `adminId`, or
   * `default` when there is none.
   */
  method FindAdminName(admins: Admins, adminId: int, default: string) returns (name: string)
    ensures forall k :: (0 <= k < |admins| && admins[k].1 == adminId &&
      forall j :: 0 <= j < k ==> admins[j].1 != adminId) ==> name == admins[k].0
    ensures (forall k :: 0 <= k < |admins| ==> admins[k].1 != adminId) ==> name == default
  {
    name := default;
    var i := 0;
    while i < |admins|
      invariant 0 <= i <= |admins|
      invariant forall j :: 0 <= j < i ==> admins[j].1 != adminId
      invariant name == default
    {
      if admins[i].1 == adminId {
        name := admins[i].0;
        break;
      }
      i := i + 1;
    }
  }
}
