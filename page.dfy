/**
  The home page gate: `isBooted` decides whether the main content is visible,
  `showBoot` whether the boot splash is mounted. The session flag read on mount
  and the clock are inputs; the 100 ms hide timeouts are an explicit list of
  due times, run earliest first.
 */
module PageGate {

  /** Delay between the boot completing and the splash being unmounted. */
  const HideDelay: nat := 100

  class Home {
    var isBooted: bool
    var showBoot: bool
    /** Due times of the pending `setShowBoot(false)` timeouts, in the order they were set. */
    var hideDue: seq<nat>

    /** The flags only move one way: booted stays booted, a hidden splash stays hidden. */
    predicate Valid()
      reads this
    {
      isBooted || (showBoot && hideDue == [])
    }

    /** First render: not booted, splash shown, nothing scheduled. */
    constructor ()
      ensures !isBooted && showBoot && hideDue == [] && Valid()
    {
      isBooted := false;
      showBoot := true;
      hideDue := [];
    }

    /** The mount effect: a stored session flag marks the page booted and drops the splash at once. */
    method MountEffect(stored: bool)
      requires Valid()
      modifies this
      ensures stored ==> isBooted && !showBoot
      ensures !stored ==> isBooted == old(isBooted) && showBoot == old(showBoot)
      ensures hideDue == old(hideDue) && Valid()
    {
      if stored {
        isBooted := true;
        showBoot := false;
      }
    }

    /** `handleBootComplete`: booted at once, the splash hidden only when the timeout set now runs. */
    method HandleBootComplete(now: nat)
      requires Valid()
      modifies this
      ensures isBooted && showBoot == old(showBoot)
      ensures hideDue == old(hideDue) + [now + HideDelay]
      ensures Valid()
    {
      isBooted := true;
      hideDue := hideDue + [now + HideDelay];
    }

    /** Runs the oldest pending hide timeout and returns its due time. */
    method FireHide() returns (at: nat)
      requires Valid() && hideDue != []
      modifies this
      ensures at == old(hideDue[0]) && hideDue == old(hideDue[1..])
      ensures !showBoot && isBooted == old(isBooted) && isBooted
      ensures Valid()
    {
      at := hideDue[0];
      hideDue := hideDue[1..];
      showBoot := false;
    }

    /** The boot splash is part of the page exactly while `showBoot` holds. */
    function BootMounted(): (b: bool)
      reads this
      ensures b <==> showBoot
    {
      showBoot
    }

    /** The main content's opacity: fully opaque once booted, transparent before. */
    function MainOpacity(): (o: int)
      reads this
      ensures o == 1 <==> isBooted
      ensures o == 0 <==> !isBooted
    {
      if isBooted then 1 else 0
    }

    /** The main content is visible exactly when booted. */
    function MainVisible(): (v: bool)
      reads this
      ensures v <==> MainOpacity() == 1
    {
      isBooted
    }
  }

  /** A return visit: the stored flag shows the page at once and never mounts a splash again. */
  method ReturnVisit() returns (visible: bool, splash: bool)
    ensures visible && !splash
  {
    var home := new Home();
    home.MountEffect(true);
    visible, splash := home.MainVisible(), home.BootMounted();
  }

  /** Completion reported twice (a skip followed by the completion timer's report) is harmless:
      the page is visible after the first report and the splash gone once the first hide has run. */
  method DoubleCompletion(skipAt: nat, timerAt: nat) returns (visibleEarly: bool, splashEarly: bool, visible: bool, splash: bool)
    ensures visibleEarly && splashEarly
    ensures visible && !splash
  {
    var home := new Home();
    home.MountEffect(false);
    home.HandleBootComplete(skipAt);
    visibleEarly, splashEarly := home.MainVisible(), home.BootMounted();
    var _ := home.FireHide();
    home.HandleBootComplete(timerAt);
    var _ := home.FireHide();
    visible, splash := home.MainVisible(), home.BootMounted();
  }
}
