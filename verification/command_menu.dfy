/**
 * The command palette (src/stellar-command/index.tsx): which commands each
 * group lists, what selecting a command does to the palette's state, going
 * back from a content view, the Cmd/Ctrl+K shortcut and the Horizon base URL.
 *
 * Freighter calls, the clipboard and `window.open` are outside the model: a
 * Freighter answer is an input (`WalletReplies`), and what the palette does
 * to the outside world is returned as a list of `Effect`s.
 */
module CommandMenu {
  import opened JsValues
  import opened Horizon

  datatype CommandKey =
    | FreighterWalletInstall
    | FreighterWalletLogin
    | FreighterWalletGetPublicKey
    | FreighterWalletGetNetwork
    | FreighterWalletGetNetworkInfo
    | StellarApiLoadAccount
    | StellarApiRecentPayments
    | StellarApiSendPayment
    | UsefulLinksStellarDevDocs
    | UsefulLinksSorobanDevDocs
    | StellarSocialsX
    | StellarSocialsGithub
    | StellarSocialsDiscord
    | StellarSocialsLinkedin
    | StellarSocialsReddit

  datatype GroupKey = FreighterWallet | StellarApi | UsefulLinks | StellarSocials

  /**
   * The property a command entry carries its selection callback under. The
   * item renderer only ever calls `onSelect`; the Reddit entry carries it
   * under `select`.
   */
  datatype Handler = OnSelect | SelectProp

  datatype Command = Command(key: CommandKey, handler: Handler)

  datatype Group = Group(key: GroupKey, commands: seq<Command>)

  function Keys(commands: seq<Command>): (keys: seq<CommandKey>)
    ensures |keys| == |commands|
    ensures forall i :: 0 <= i < |commands| ==> keys[i] == commands[i].key
  {
    seq(|commands|, i requires 0 <= i < |commands| => commands[i].key)
  }

  // ---------------------------------------------------------------------------
  // Command groups

  /** The commands offered once Freighter is installed, whether or not access was granted. */
  const WalletAccessCommands := [
    Command(FreighterWalletGetPublicKey, OnSelect),
    Command(FreighterWalletGetNetwork, OnSelect)
  ]

  /** The Freighter group: install when missing, otherwise login (if not yet allowed), key and network. */
  function FreighterWalletCommands(installed: bool, allowed: bool): (commands: seq<Command>)
    ensures FreighterWalletInstall in Keys(commands) <==> !installed
    ensures FreighterWalletLogin in Keys(commands) <==> installed && !allowed
    ensures FreighterWalletGetPublicKey in Keys(commands) <==> installed
    ensures FreighterWalletGetNetwork in Keys(commands) <==> installed
    ensures FreighterWalletGetNetworkInfo !in Keys(commands)
    // when present, login comes first and the network check last
    ensures installed ==> Keys(commands)[|commands| - 1] == FreighterWalletGetNetwork
    ensures installed && !allowed ==> Keys(commands)[0] == FreighterWalletLogin
    ensures forall c :: c in commands ==> c.handler == OnSelect
  {
    if !installed then
      var commands := [Command(FreighterWalletInstall, OnSelect)];
      assert Keys(commands) == [FreighterWalletInstall];
      commands
    else if !allowed then
      var commands := [Command(FreighterWalletLogin, OnSelect)] + WalletAccessCommands;
      assert Keys(commands) == [FreighterWalletLogin, FreighterWalletGetPublicKey, FreighterWalletGetNetwork];
      commands
    else
      assert Keys(WalletAccessCommands) == [FreighterWalletGetPublicKey, FreighterWalletGetNetwork];
      WalletAccessCommands
  }

  const StellarApiCommands := [
    Command(StellarApiLoadAccount, OnSelect),
    Command(StellarApiRecentPayments, OnSelect),
    Command(StellarApiSendPayment, OnSelect)
  ]

  const UsefulLinkCommands := [
    Command(UsefulLinksStellarDevDocs, OnSelect),
    Command(UsefulLinksSorobanDevDocs, OnSelect)
  ]

  const SocialCommands := [
    Command(StellarSocialsX, OnSelect),
    Command(StellarSocialsGithub, OnSelect),
    Command(StellarSocialsDiscord, OnSelect),
    Command(StellarSocialsLinkedin, OnSelect),
    Command(StellarSocialsReddit, SelectProp)
  ]

  function CommandGroups(installed: bool, allowed: bool): (groups: seq<Group>)
    ensures |groups| == 4
    ensures groups[0].key == FreighterWallet && groups[1].key == StellarApi
    ensures groups[2].key == UsefulLinks && groups[3].key == StellarSocials
    ensures groups[0].commands == FreighterWalletCommands(installed, allowed)
  {
    [ Group(FreighterWallet, FreighterWalletCommands(installed, allowed)),
      Group(StellarApi, StellarApiCommands),
      Group(UsefulLinks, UsefulLinkCommands),
      Group(StellarSocials, SocialCommands) ]
  }

  /** Every command listed, group after group, as the palette renders them. */
  function Listed(groups: seq<Group>): seq<Command>
  {
    if |groups| == 0 then [] else groups[0].commands + Listed(groups[1..])
  }

  /** The commands of the three groups that never change. */
  const FixedCommands := StellarApiCommands + UsefulLinkCommands + SocialCommands

  /** The palette lists the wallet commands, then the fixed ones. */
  lemma ListedCommands(installed: bool, allowed: bool)
    ensures Listed(CommandGroups(installed, allowed)) == FreighterWalletCommands(installed, allowed) + FixedCommands
  {
    var groups := CommandGroups(installed, allowed);
    assert Listed(groups[4..]) == [];
    assert Listed(groups[3..]) == SocialCommands;
    assert Listed(groups[2..]) == UsefulLinkCommands + SocialCommands;
    assert Listed(groups[1..]) == StellarApiCommands + (UsefulLinkCommands + SocialCommands);
  }

  /** Only the wallet group depends on the wallet's state; the other three never change. */
  lemma OnlyWalletGroupVaries(installed: bool, allowed: bool, installed': bool, allowed': bool)
    ensures CommandGroups(installed, allowed)[1..] == CommandGroups(installed', allowed')[1..]
    ensures Keys(CommandGroups(installed, allowed)[1].commands)
         == [StellarApiLoadAccount, StellarApiRecentPayments, StellarApiSendPayment]
  {
  }

  /** The Reddit entry is the only listed command without an `onSelect` callback. */
  lemma OnlyRedditLacksOnSelect(installed: bool, allowed: bool, c: Command)
    requires c in Listed(CommandGroups(installed, allowed))
    ensures c.handler == SelectProp <==> c.key == StellarSocialsReddit
  {
    ListedCommands(installed, allowed);
    if c !in FreighterWalletCommands(installed, allowed) {
      assert c in FixedCommands;
    }
  }

  /** The keys of every listed command, in display order. */
  lemma ListedKeys(installed: bool, allowed: bool)
    ensures Keys(Listed(CommandGroups(installed, allowed)))
         == Keys(FreighterWalletCommands(installed, allowed)) + FixedKeys
  {
    ListedCommands(installed, allowed);
    KeysAppend(FreighterWalletCommands(installed, allowed), FixedCommands);
    assert Keys(FixedCommands) == FixedKeys;
  }

  lemma KeysAppend(xs: seq<Command>, ys: seq<Command>)
    ensures Keys(xs + ys) == Keys(xs) + Keys(ys)
  {
  }

  /** The keys of the three groups that never change. */
  const FixedKeys := [
    StellarApiLoadAccount, StellarApiRecentPayments, StellarApiSendPayment,
    UsefulLinksStellarDevDocs, UsefulLinksSorobanDevDocs,
    StellarSocialsX, StellarSocialsGithub, StellarSocialsDiscord, StellarSocialsLinkedin, StellarSocialsReddit
  ]

  /** The position of a key in the command-key enumeration. */
  function Rank(k: CommandKey): nat
  {
    match k
    case FreighterWalletInstall => 0
    case FreighterWalletLogin => 1
    case FreighterWalletGetPublicKey => 2
    case FreighterWalletGetNetwork => 3
    case FreighterWalletGetNetworkInfo => 4
    case StellarApiLoadAccount => 5
    case StellarApiRecentPayments => 6
    case StellarApiSendPayment => 7
    case UsefulLinksStellarDevDocs => 8
    case UsefulLinksSorobanDevDocs => 9
    case StellarSocialsX => 10
    case StellarSocialsGithub => 11
    case StellarSocialsDiscord => 12
    case StellarSocialsLinkedin => 13
    case StellarSocialsReddit => 14
  }

  /** Each key ranks above the one before it. */
  predicate StepwiseIncreasing(keys: seq<CommandKey>)
  {
    forall i :: 0 < i < |keys| ==> Rank(keys[i - 1]) < Rank(keys[i])
  }

  lemma {:induction false} RankGrows(keys: seq<CommandKey>, i: nat, j: nat)
    requires StepwiseIncreasing(keys) && i < j < |keys|
    ensures Rank(keys[i]) < Rank(keys[j])
    decreases j - i
  {
    if j > i + 1 {
      RankGrows(keys, i, j - 1);
    }
  }

  predicate Distinct(keys: seq<CommandKey>)
  {
    forall i, j :: 0 <= i < j < |keys| ==> keys[i] != keys[j]
  }

  lemma WalletKeysIncreasing(installed: bool, allowed: bool)
    ensures var wallet := Keys(FreighterWalletCommands(installed, allowed));
            && StepwiseIncreasing(wallet) && |wallet| > 0 && Rank(wallet[|wallet| - 1]) <= 3
            && forall k :: k in wallet ==> Rank(k) != 4
  {
    var wallet := Keys(FreighterWalletCommands(installed, allowed));
    if !installed {
      assert wallet == [FreighterWalletInstall];
    } else if !allowed {
      assert wallet == [FreighterWalletLogin, FreighterWalletGetPublicKey, FreighterWalletGetNetwork];
    } else {
      assert wallet == [FreighterWalletGetPublicKey, FreighterWalletGetNetwork];
    }
  }

  lemma FixedKeysIncreasing()
    ensures StepwiseIncreasing(FixedKeys) && Rank(FixedKeys[0]) == 5
    ensures forall k :: k in FixedKeys ==> Rank(k) >= 5
  {
  }

  /** No command is listed twice, and the network-details command is never listed. */
  lemma ListedKeysDistinct(installed: bool, allowed: bool)
    ensures Distinct(Keys(Listed(CommandGroups(installed, allowed))))
    ensures FreighterWalletGetNetworkInfo !in Keys(Listed(CommandGroups(installed, allowed)))
  {
    ListedKeys(installed, allowed);
    var keys := Keys(Listed(CommandGroups(installed, allowed)));
    WalletKeysIncreasing(installed, allowed);
    FixedKeysIncreasing();
    var wallet := Keys(FreighterWalletCommands(installed, allowed));
    assert Rank(wallet[|wallet| - 1]) < Rank(FixedKeys[0]);
    assert StepwiseIncreasing(keys) by {
      forall i | 0 < i < |keys|
        ensures Rank(keys[i - 1]) < Rank(keys[i])
      {
        if i < |wallet| {
          assert keys[i - 1] == wallet[i - 1] && keys[i] == wallet[i];
        } else if i == |wallet| {
          assert keys[i - 1] == wallet[|wallet| - 1] && keys[i] == FixedKeys[0];
        } else {
          assert keys[i - 1] == FixedKeys[i - 1 - |wallet|] && keys[i] == FixedKeys[i - |wallet|];
        }
      }
    }
    forall i, j | 0 <= i < j < |keys|
      ensures keys[i] != keys[j]
    {
      RankGrows(keys, i, j);
    }
  }

  // ---------------------------------------------------------------------------
  // Palette state and transitions

  /** The content views a command can install; each receives the Horizon server. */
  datatype View =
    | MyAccountView(serverUrl: string)
    | RecentPaymentsView(serverUrl: string)
    | SendPaymentView(serverUrl: string, isTestNet: bool)

  /** The palette's state: the `open` prop and the component's own state. */
  datatype Menu = Menu(
    open: bool,
    installed: bool,
    allowed: bool,
    selected: Option<CommandKey>,
    content: Option<View>,
    search: string)

  /** What the palette does outside itself. */
  datatype Effect =
    | OpenWindow(url: string)
    | CopyPublicKey
    | ShowNetwork

  /** Freighter's answers: `setAllowed()`, and `getPublicKey()` followed by the clipboard write. */
  datatype WalletReplies = WalletReplies(setAllowed: Reply<bool>, copyPublicKey: Reply<()>)

  datatype Step = Step(menu: Menu, effects: seq<Effect>)

  /** `isTestNet ? TEST_NET_BASE_URL : PUB_NET_BASE_URL` */
  function BaseUrl(isTestNet: bool): (url: string)
    ensures url == TestNetBaseUrl <==> isTestNet
    ensures url == PubNetBaseUrl <==> !isTestNet
  {
    if isTestNet then TestNetBaseUrl else PubNetBaseUrl
  }

  /** The page each link-style command opens in a new tab. */
  function LinkUrl(key: CommandKey): Option<string>
  {
    match key
    case FreighterWalletInstall => Some("https://www.freighter.app/")
    case UsefulLinksStellarDevDocs => Some("https://developers.stellar.org/")
    case UsefulLinksSorobanDevDocs => Some("https://soroban.stellar.org/")
    case StellarSocialsX => Some("https://twitter.com/StellarOrg")
    case StellarSocialsGithub => Some("https://github.com/stellar/stellar-docs")
    case StellarSocialsDiscord => Some("https://discord.com/invite/stellardev")
    case StellarSocialsLinkedin => Some("https://www.linkedin.com/company/stellar-development-foundation/")
    case StellarSocialsReddit => Some("https://www.reddit.com/r/Stellar/")
    case _ => None
  }

  /** The content view a Stellar API command installs. */
  function ContentView(key: CommandKey, isTestNet: bool): Option<View>
  {
    match key
    case StellarApiLoadAccount => Some(MyAccountView(BaseUrl(isTestNet)))
    case StellarApiRecentPayments => Some(RecentPaymentsView(BaseUrl(isTestNet)))
    case StellarApiSendPayment => Some(SendPaymentView(BaseUrl(isTestNet), isTestNet))
    case _ => None
  }

  /**
   * `handleCommand`, run after the selection changed to `key`. A Freighter
   * call that throws ends the async handler before it clears the selection.
   */
  function HandleCommand(m: Menu, key: CommandKey, isTestNet: bool, replies: WalletReplies): (s: Step)
    // only a login can change `allowed`, and only towards true
    ensures s.menu.allowed == (m.allowed || (key == FreighterWalletLogin && replies.setAllowed == Returned(true)))
    // the Stellar API commands install their view and keep the selection
    ensures ContentView(key, isTestNet).Some? ==>
              s.menu == m.(content := ContentView(key, isTestNet)) && s.effects == []
    // the link commands open their page, clear the selection and keep the content
    ensures LinkUrl(key).Some? ==>
              s.menu == m.(selected := None) && s.effects == [OpenWindow(LinkUrl(key).value)]
    // the wallet commands clear the selection once Freighter has answered
    ensures key == FreighterWalletGetNetwork ==> s == Step(m.(selected := None), [ShowNetwork])
    ensures key == FreighterWalletGetNetworkInfo ==> s == Step(m, [])
    ensures key == FreighterWalletGetPublicKey ==>
              s == (if replies.copyPublicKey.Returned? then Step(m.(selected := None), [CopyPublicKey]) else Step(m, []))
    ensures key == FreighterWalletLogin ==>
              s.menu.selected == (if replies.setAllowed.Returned? then None else m.selected) && s.effects == []
    // nothing but the selection, the content and `allowed` ever changes
    ensures s.menu.open == m.open && s.menu.installed == m.installed && s.menu.search == m.search
    ensures s.menu.content != m.content ==> ContentView(key, isTestNet).Some?
  {
    if ContentView(key, isTestNet).Some? then
      Step(m.(content := ContentView(key, isTestNet)), [])
    else if LinkUrl(key).Some? then
      Step(m.(selected := None), [OpenWindow(LinkUrl(key).value)])
    else
      match key
      case FreighterWalletLogin =>
        (match replies.setAllowed
         case Threw => Step(m, [])
         case Returned(granted) =>
           Step(m.(allowed := if granted then true else m.allowed, selected := None), []))
      case FreighterWalletGetPublicKey =>
        (match replies.copyPublicKey
         case Threw => Step(m, [])
         case Returned(_) => Step(m.(selected := None), [CopyPublicKey]))
      case FreighterWalletGetNetwork =>
        // `retrieveNetwork` catches Freighter's error and reports it instead
        Step(m.(selected := None), [ShowNetwork])
      case _ =>
        // FREIGHTER_WALLET_GET_NETWORK_INFO fetches the details and does nothing with them
        Step(m, [])
  }

  /**
   * Clicking a listed command: the item calls `cmd.onSelect(cmd.key)`. The
   * Reddit entry has no `onSelect`, so the call throws and nothing changes.
   * Setting the selection to its current value does not re-run the effect.
   */
  function ChooseCommand(m: Menu, c: Command, isTestNet: bool, replies: WalletReplies): (s: Step)
    ensures c.handler == SelectProp ==> s == Step(m, [])
    ensures m.selected == Some(c.key) ==> s == Step(m, [])
    ensures c.handler == OnSelect && m.selected != Some(c.key) ==>
              s == HandleCommand(m.(selected := Some(c.key)), c.key, isTestNet, replies)
  {
    if c.handler == SelectProp || m.selected == Some(c.key) then Step(m, [])
    else HandleCommand(m.(selected := Some(c.key)), c.key, isTestNet, replies)
  }

  /** Choosing the listed Reddit entry never opens Reddit. */
  lemma RedditChoiceIsInert(m: Menu, installed: bool, allowed: bool, c: Command, isTestNet: bool, replies: WalletReplies)
    requires c in Listed(CommandGroups(installed, allowed)) && c.key == StellarSocialsReddit
    ensures ChooseCommand(m, c, isTestNet, replies) == Step(m, [])
  {
    OnlyRedditLacksOnSelect(installed, allowed, c);
  }

  /** A Stellar API command chosen from the list shows its view and stays selected. */
  lemma ChosenViewStaysSelected(m: Menu, c: Command, isTestNet: bool, replies: WalletReplies)
    requires c.handler == OnSelect && m.selected != Some(c.key)
    requires c.key in {StellarApiLoadAccount, StellarApiRecentPayments, StellarApiSendPayment}
    ensures var s := ChooseCommand(m, c, isTestNet, replies);
            && s.menu.selected == Some(c.key)
            && s.menu.content == ContentView(c.key, isTestNet)
            && s.menu.content.Some? && s.menu.content.value.serverUrl == BaseUrl(isTestNet)
  {
  }

  /** `clearSelectedContent`, which every content view calls to go back. */
  function ClearSelectedContent(m: Menu): (m': Menu)
    ensures m'.selected.None? && m'.content.None? && m'.search == ""
    ensures m'.open == m.open && m'.installed == m.installed && m'.allowed == m.allowed
  {
    m.(selected := None, content := None, search := "")
  }

  /** Going back from a view chosen from the list restores the list with an empty search. */
  lemma GoBackAfterView(m: Menu, c: Command, isTestNet: bool, replies: WalletReplies)
    requires c.handler == OnSelect && m.selected != Some(c.key) && ContentView(c.key, isTestNet).Some?
    ensures ClearSelectedContent(ChooseCommand(m, c, isTestNet, replies).menu) == ClearSelectedContent(m)
  {
  }

  /** The mount-time wallet probe: `isConnected()` and `isAllowed()`. */
  function CheckFreighterWallet(m: Menu, connected: bool, allowed: bool): (m': Menu)
    ensures m'.installed == connected && m'.allowed == allowed
    ensures m'.(installed := m.installed, allowed := m.allowed) == m
  {
    m.(installed := connected, allowed := allowed)
  }

  // ---------------------------------------------------------------------------
  // Keyboard shortcut

  datatype KeyEvent = KeyEvent(key: string, metaKey: bool, ctrlKey: bool)

  /** `e.key === "k" && (e.metaKey || e.ctrlKey)` */
  predicate IsToggleChord(e: KeyEvent)
  {
    e.key == "k" && (e.metaKey || e.ctrlKey)
  }

  /**
   * The listener as written: it is registered once, on mount, so the `open`
   * it negates is the value from the first render, not the current one.
   */
  function KeyDownAsWritten(openAtMount: bool, m: Menu, e: KeyEvent): (m': Menu)
    ensures IsToggleChord(e) ==> m'.open == !openAtMount && m'.(open := m.open) == m
    ensures !IsToggleChord(e) ==> m' == m
  {
    if IsToggleChord(e) then m.(open := !openAtMount) else m
  }

  /** The shortcut as intended: it toggles the current `open`. */
  function KeyDown(m: Menu, e: KeyEvent): (m': Menu)
    ensures IsToggleChord(e) ==> m'.open == !m.open && m'.(open := m.open) == m
    ensures !IsToggleChord(e) ==> m' == m
  {
    if IsToggleChord(e) then m.(open := !m.open) else m
  }

  /** Pressing the chord twice returns the palette to where it was. */
  lemma KeyDownTwiceRestores(m: Menu, e: KeyEvent)
    ensures KeyDown(KeyDown(m, e), e) == m
  {
  }

  /**
   * As written, a palette mounted closed and then opened with Cmd+K cannot be
   * closed with Cmd+K: every later press asks to open it again.
   */
  lemma StaleListenerNeverCloses(m: Menu)
    requires !m.open
    ensures var e := KeyEvent("k", true, false);
            var once := KeyDownAsWritten(m.open, m, e);
            && once.open
            && KeyDownAsWritten(m.open, once, e).open
            && !KeyDown(once, e).open
  {
  }
}
