/**
 * `ConnectedWalletBadge` (`src/components/verification/ConnectedWalletBadge.tsx`):
 * the badge that shows the verified wallet, shortened, next to the Farcaster
 * profile picture or, failing that, the initial of the Farcaster name. The
 * rendered element is modelled as the values it displays.
 */
module WalletBadge {
  import opened Wrappers
  import Js
  import Cn
  import Seqs

  /** The classes every badge carries before the caller's own. */
  const BaseClass := "inline-flex items-center gap-2 rounded-full border border-zinc-600/50 bg-zinc-800/80 px-3 py-1.5 text-sm"

  /** The Farcaster profile fields the badge reads; each may be missing. */
  datatype FarcasterUser = FarcasterUser(displayName: Option<string>, username: Option<string>, pfpUrl: Option<string>)

  /** The picture, or the one-letter stand-in shown when there is no picture. */
  datatype Avatar = Picture(src: string, alt: string) | Initial(letter: string)

  /** What the badge shows: its classes, its tooltip, the shortened wallet and the avatar. */
  datatype Badge = Badge(className: string, title: string, truncated: string, avatar: Avatar)

  /** `x || null` for an optional string: the empty string counts as missing. */
  function NonEmpty(x: Option<string>): (r: Option<string>)
    ensures r.Some? <==> x.Some? && x.value != ""
    ensures r.Some? ==> r.value == x.value
  {
    if x.Some? && x.value != "" then x else None
  }

  /**
   * `truncateAddress`: an empty address or one shorter than 12 characters is
   * kept; otherwise the first six characters, four dots and the last four.
   */
  function TruncateAddress(address: string): (r: string)
    ensures |address| < 12 ==> r == address
    ensures |address| >= 12 ==>
              && |r| == 14
              && r[..6] == address[..6]
              && r[6..10] == "...."
              && r[10..] == address[|address| - 4..]
  {
    if address == "" || |address| < 12 then address
    else Js.Slice(address, 0, 6) + "...." + Js.SliceFrom(address, -4)
  }

  /** A shortened address is left alone when it is shortened again. */
  lemma TruncateIdempotent(address: string)
    ensures TruncateAddress(TruncateAddress(address)) == TruncateAddress(address)
  {
    var r := TruncateAddress(address);
    if |address| >= 12 {
      assert r == r[..6] + r[6..10] + r[10..];
    }
  }

  /** Only addresses longer than 14 characters get shorter; those of 12 or 13 grow to 14. */
  lemma TruncateLength(address: string)
    ensures |address| > 14 ==> |TruncateAddress(address)| < |address|
    ensures 12 <= |address| <= 13 ==> |TruncateAddress(address)| > |address|
  {
  }

  /** `user?.displayName || user?.username || null` */
  function DisplayName(user: Option<FarcasterUser>): (r: Option<string>)
    ensures r.Some? ==> r.value != ""
    ensures user.None? ==> r.None?
    ensures user.Some? && NonEmpty(user.value.displayName).Some? ==> r == user.value.displayName
    ensures user.Some? && NonEmpty(user.value.displayName).None? ==> r == NonEmpty(user.value.username)
  {
    if user.None? then None
    else if NonEmpty(user.value.displayName).Some? then NonEmpty(user.value.displayName)
    else NonEmpty(user.value.username)
  }

  /** `user?.pfpUrl || null` */
  function PfpUrl(user: Option<FarcasterUser>): (r: Option<string>)
    ensures r.Some? <==> user.Some? && user.value.pfpUrl.Some? && user.value.pfpUrl.value != ""
    ensures r.Some? ==> r.value == user.value.pfpUrl.value
  {
    if user.None? then None else NonEmpty(user.value.pfpUrl)
  }

  /** The tooltip: the wallet followed by " · " and the name when there is a name, else the wallet. */
  function Title(wallet: string, displayName: Option<string>): (r: string)
    ensures displayName.Some? && displayName.value != "" ==> r == wallet + " · " + displayName.value
    ensures !(displayName.Some? && displayName.value != "") ==> r == wallet
    ensures r[..|wallet|] == wallet
  {
    if displayName.Some? && displayName.value != "" then wallet + " · " + displayName.value else wallet
  }

  /** `displayName?.charAt(0)?.toUpperCase() || '?'` */
  function InitialOf(displayName: Option<string>): (r: string)
    ensures |r| == 1
    ensures displayName.Some? && displayName.value != "" ==> r == [Js.UpperChar(displayName.value[0])]
    ensures !(displayName.Some? && displayName.value != "") ==> r == "?"
  {
    if displayName.Some? && displayName.value != "" then Js.ToUpper(displayName.value[..1]) else "?"
  }

  /**
   * The component: nothing without a wallet; otherwise the badge, with the
   * picture when there is one (its alt text the name, or 'Avatar') and the
   * initial (or '?') when there is none.
   */
  function Render(walletAddress: Option<string>, user: Option<FarcasterUser>, className: Js.Value): (r: Option<Badge>)
    ensures r.None? <==> walletAddress.None? || walletAddress.value == ""
    ensures r.Some? ==> r.value.truncated == TruncateAddress(walletAddress.value)
    ensures r.Some? ==> r.value.title == Title(walletAddress.value, DisplayName(user))
    ensures r.Some? ==> r.value.className == Cn.ClassList([Js.Str(BaseClass), className])
    ensures r.Some? ==> (r.value.avatar.Picture? <==> PfpUrl(user).Some?)
    ensures r.Some? && PfpUrl(user).Some? ==> r.value.avatar == Picture(PfpUrl(user).value, DisplayName(user).GetOr("Avatar"))
    ensures r.Some? && PfpUrl(user).None? ==> r.value.avatar == Initial(InitialOf(DisplayName(user)))
  {
    if walletAddress.None? || walletAddress.value == "" then None
    else
      var wallet := walletAddress.value;
      var displayName := DisplayName(user);
      var avatar := match PfpUrl(user)
        case Some(url) => Picture(url, displayName.GetOr("Avatar"))
        case None => Initial(InitialOf(displayName));
      Some(Badge(Cn.ClassList([Js.Str(BaseClass), className]), Title(wallet, displayName), TruncateAddress(wallet), avatar))
  }

  /** The badge always carries its base classes, whatever the caller adds. */
  lemma BaseClassAlwaysPresent(className: Js.Value)
    ensures BaseClass in Seqs.Filter(Cn.Pieces([Js.Str(BaseClass), className]), Cn.NonEmpty)
  {
    Cn.StringInputKept([Js.Str(BaseClass), className], 0);
  }

  /** Without a Farcaster user the badge shows the wallet alone as tooltip and '?' as avatar. */
  lemma AnonymousBadge(wallet: string, className: Js.Value)
    requires wallet != ""
    ensures Render(Some(wallet), None, className).Some?
    ensures Render(Some(wallet), None, className).value.title == wallet
    ensures Render(Some(wallet), None, className).value.avatar == Initial("?")
  {
  }
}
