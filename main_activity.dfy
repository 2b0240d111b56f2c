/**
 * The ad-gating state of MainActivity.kt: the interstitial cooldown, the
 * guard in front of the task reward video, and the app-open ad manager.
 * The clock (`System.currentTimeMillis()`) is a parameter; the ad SDK's
 * callbacks are methods the SDK calls.  Holding an ad object is a flag.
 */
module MainActivity {

  /** Milliseconds between two interstitials. */
  const InterstitialCooldown: int := 30000
  const MillisPerHour: int := 3600000
  /** How old, in hours, a loaded app-open ad may be and still be shown. */
  const AppOpenAdMaxAgeHours: int := 4

  /** Consecutive times at least a cooldown apart. */
  ghost predicate Spaced(times: seq<int>) {
    forall i :: 0 < i < |times| ==> times[i] - times[i - 1] >= InterstitialCooldown
  }

  /** Two shows `j - i` apart in the sequence are at least `j - i` cooldowns
      apart in time; in particular no 30-second window holds two shows. */
  lemma {:induction false} SpacedApart(times: seq<int>, i: int, j: int)
    requires Spaced(times) && 0 <= i <= j < |times|
    ensures times[j] - times[i] >= InterstitialCooldown * (j - i)
  {
    if i < j {
      SpacedApart(times, i, j - 1);
    }
  }

  /** `currentId.isEmpty() || currentId == "null"` fails. */
  predicate HasPlayerId(currentId: string)
    ensures HasPlayerId(currentId) ==> currentId != []
    ensures |currentId| != 0 && |currentId| != 4 ==> HasPlayerId(currentId)
  {
    !(currentId == [] || currentId == "null")
  }

  /** `wasLoadTimeLessThanNHoursAgo(4)`. */
  predicate LoadedRecently(loadTime: int, now: int)
    ensures LoadedRecently(loadTime, now) <==> now < loadTime + 14400000
    ensures now <= loadTime ==> LoadedRecently(loadTime, now)
  {
    now - loadTime < MillisPerHour * AppOpenAdMaxAgeHours
  }

  datatype InterstitialOutcome = InCooldown | Shown | NotReady

  datatype RewardedOutcome = MissingPlayerId | ShowingVideo | VideoNotReady

  /** The activity's interstitial and task-video fields. */
  class AdGate {
    var lastInterstitialTime: int
    /** `mInterstitialAd != null`. */
    var interstitialLoaded: bool
    /** Calls made to `loadInterstitialAd`. */
    var interstitialLoads: nat
    /** `mRewardedAdForTask != null`. */
    var taskVideoLoaded: bool
    /** Calls made to `loadRewardedAdForTask`. */
    var taskVideoLoads: nat
    /** The times at which an interstitial was shown. */
    ghost var shows: seq<int>

    /** `lastInterstitialTime` is the time of the latest show (0 before the
        first), and the shows are a cooldown apart. */
    ghost predicate Valid()
      reads this
    {
      && (shows == [] ==> lastInterstitialTime == 0)
      && (shows != [] ==> lastInterstitialTime == shows[|shows| - 1])
      && Spaced(shows)
    }

    /** The fields as the activity declares them.  No ad is held and no load
        has been requested yet: the first loads come from
        `OnMobileAdsInitialized`. */
    constructor ()
      ensures Valid() && shows == []
      ensures lastInterstitialTime == 0 && !interstitialLoaded && !taskVideoLoaded
      ensures interstitialLoads == 0 && taskVideoLoads == 0
    {
      lastInterstitialTime := 0;
      interstitialLoaded := false;
      interstitialLoads := 0;
      taskVideoLoaded := false;
      taskVideoLoads := 0;
      shows := [];
    }

    /** `showInterstitialWithCooldown()` at time `now`. */
    method ShowInterstitialWithCooldown(now: int) returns (outcome: InterstitialOutcome)
      requires Valid()
      modifies this
      ensures Valid()
      ensures interstitialLoaded == old(interstitialLoaded)
      ensures taskVideoLoaded == old(taskVideoLoaded) && taskVideoLoads == old(taskVideoLoads)
      ensures now - old(lastInterstitialTime) < InterstitialCooldown ==>
        outcome == InCooldown && lastInterstitialTime == old(lastInterstitialTime)
        && interstitialLoads == old(interstitialLoads) && shows == old(shows)
      ensures now - old(lastInterstitialTime) >= InterstitialCooldown && old(interstitialLoaded) ==>
        outcome == Shown && lastInterstitialTime == now
        && interstitialLoads == old(interstitialLoads) && shows == old(shows) + [now]
      ensures now - old(lastInterstitialTime) >= InterstitialCooldown && !old(interstitialLoaded) ==>
        outcome == NotReady && lastInterstitialTime == old(lastInterstitialTime)
        && interstitialLoads == old(interstitialLoads) + 1 && shows == old(shows)
    {
      if now - lastInterstitialTime < InterstitialCooldown {
        return InCooldown;
      }
      if interstitialLoaded {
        lastInterstitialTime := now;
        shows := shows + [now];
        outcome := Shown;
      } else {
        interstitialLoads := interstitialLoads + 1;
        outcome := NotReady;
      }
    }

    /** The `MobileAds.initialize` completion callback in `onCreate`: it
        requests one task video and one interstitial (the spins video is not
        part of this model). */
    method OnMobileAdsInitialized()
      requires Valid()
      modifies this
      ensures Valid()
      ensures taskVideoLoads == old(taskVideoLoads) + 1 && interstitialLoads == old(interstitialLoads) + 1
      ensures taskVideoLoaded == old(taskVideoLoaded) && interstitialLoaded == old(interstitialLoaded)
      ensures lastInterstitialTime == old(lastInterstitialTime) && shows == old(shows)
    {
      taskVideoLoads := taskVideoLoads + 1;
      interstitialLoads := interstitialLoads + 1;
    }

    /** `onAdLoaded` of the interstitial load callback. */
    method OnInterstitialLoaded()
      requires Valid()
      modifies this
      ensures Valid()
      ensures interstitialLoaded
      ensures lastInterstitialTime == old(lastInterstitialTime) && shows == old(shows)
      ensures interstitialLoads == old(interstitialLoads)
      ensures taskVideoLoaded == old(taskVideoLoaded) && taskVideoLoads == old(taskVideoLoads)
    {
      interstitialLoaded := true;
    }

    /** `onAdFailedToLoad` of the interstitial load callback. */
    method OnInterstitialFailedToLoad()
      requires Valid()
      modifies this
      ensures Valid()
      ensures !interstitialLoaded
      ensures lastInterstitialTime == old(lastInterstitialTime) && shows == old(shows)
      ensures interstitialLoads == old(interstitialLoads)
      ensures taskVideoLoaded == old(taskVideoLoaded) && taskVideoLoads == old(taskVideoLoads)
    {
      interstitialLoaded := false;
    }

    /** `onAdDismissedFullScreenContent` and `onAdFailedToShowFullScreenContent`
        of a shown interstitial: drop it and load another. */
    method OnInterstitialClosed()
      requires Valid()
      modifies this
      ensures Valid()
      ensures !interstitialLoaded && interstitialLoads == old(interstitialLoads) + 1
      ensures lastInterstitialTime == old(lastInterstitialTime) && shows == old(shows)
      ensures taskVideoLoaded == old(taskVideoLoaded) && taskVideoLoads == old(taskVideoLoads)
    {
      interstitialLoaded := false;
      interstitialLoads := interstitialLoads + 1;
    }

    /** `onAdLoaded` of the task-video load callback. */
    method OnTaskVideoLoaded()
      requires Valid()
      modifies this
      ensures Valid()
      ensures taskVideoLoaded && taskVideoLoads == old(taskVideoLoads)
      ensures lastInterstitialTime == old(lastInterstitialTime) && shows == old(shows)
      ensures interstitialLoaded == old(interstitialLoaded) && interstitialLoads == old(interstitialLoads)
    {
      taskVideoLoaded := true;
    }

    /** `onAdFailedToLoad` of the task-video load callback. */
    method OnTaskVideoFailedToLoad()
      requires Valid()
      modifies this
      ensures Valid()
      ensures !taskVideoLoaded && taskVideoLoads == old(taskVideoLoads)
      ensures lastInterstitialTime == old(lastInterstitialTime) && shows == old(shows)
      ensures interstitialLoaded == old(interstitialLoaded) && interstitialLoads == old(interstitialLoads)
    {
      taskVideoLoaded := false;
    }

    /** `onAdDismissedFullScreenContent` and `onAdFailedToShowFullScreenContent`
        of a shown task video: drop it and load another. */
    method OnTaskVideoClosed()
      requires Valid()
      modifies this
      ensures Valid()
      ensures !taskVideoLoaded && taskVideoLoads == old(taskVideoLoads) + 1
      ensures lastInterstitialTime == old(lastInterstitialTime) && shows == old(shows)
      ensures interstitialLoaded == old(interstitialLoaded) && interstitialLoads == old(interstitialLoads)
    {
      taskVideoLoaded := false;
      taskVideoLoads := taskVideoLoads + 1;
    }

    /** `requestRewardedAdForTask(rewardAmount, currentId)`: no video without a
        player id; otherwise the loaded video is shown, or a new one loaded. */
    method RequestRewardedAdForTask(rewardAmount: int, currentId: string) returns (outcome: RewardedOutcome)
      requires Valid()
      modifies this
      ensures Valid()
      ensures !HasPlayerId(currentId) ==> outcome == MissingPlayerId && taskVideoLoads == old(taskVideoLoads)
      ensures HasPlayerId(currentId) && old(taskVideoLoaded) ==>
        outcome == ShowingVideo && taskVideoLoads == old(taskVideoLoads)
      ensures HasPlayerId(currentId) && !old(taskVideoLoaded) ==>
        outcome == VideoNotReady && taskVideoLoads == old(taskVideoLoads) + 1
      ensures taskVideoLoaded == old(taskVideoLoaded)
      ensures lastInterstitialTime == old(lastInterstitialTime) && shows == old(shows)
      ensures interstitialLoaded == old(interstitialLoaded) && interstitialLoads == old(interstitialLoads)
    {
      if currentId == [] || currentId == "null" {
        return MissingPlayerId;
      }
      if taskVideoLoaded {
        outcome := ShowingVideo;
      } else {
        taskVideoLoads := taskVideoLoads + 1;
        outcome := VideoNotReady;
      }
    }
  }

  /** `MainActivity.AppOpenAdManager`. */
  class AppOpenAdManager {
    /** `appOpenAd != null`. */
    var hasAd: bool
    var isLoadingAd: bool
    var isShowingAd: bool
    var loadTime: int
    /** Load requests handed to the SDK and not yet answered by a callback. */
    var pendingLoads: nat

    /** At most one load is ever outstanding, and `isLoadingAd` says whether
        one is; an ad being shown is held. */
    ghost predicate Valid()
      reads this
    {
      && pendingLoads <= 1
      && (isLoadingAd <==> pendingLoads == 1)
      && (isShowingAd ==> hasAd)
    }

    /** `isAdAvailable()` at time `now`. */
    predicate IsAdAvailable(now: int)
      reads this
      ensures IsAdAvailable(now) ==> hasAd
      ensures now >= loadTime + AppOpenAdMaxAgeHours * MillisPerHour ==> !IsAdAvailable(now)
      ensures hasAd && now <= loadTime ==> IsAdAvailable(now)
    {
      hasAd && LoadedRecently(loadTime, now)
    }

    /** The manager as `init` leaves it: empty, with one load requested. */
    constructor (now: int)
      ensures Valid()
      ensures !hasAd && isLoadingAd && !isShowingAd && loadTime == 0 && pendingLoads == 1
    {
      hasAd := false;
      isLoadingAd := false;
      isShowingAd := false;
      loadTime := 0;
      pendingLoads := 0;
      new;
      LoadAd(now);
    }

    /** `loadAd()` at time `now`: a no-op while loading or while an ad is
        available; otherwise a load is requested. */
    method LoadAd(now: int)
      requires Valid()
      modifies this
      ensures Valid()
      ensures hasAd == old(hasAd) && isShowingAd == old(isShowingAd) && loadTime == old(loadTime)
      ensures old(isLoadingAd) || old(IsAdAvailable(now)) ==>
        isLoadingAd == old(isLoadingAd) && pendingLoads == old(pendingLoads)
      ensures !old(isLoadingAd) && !old(IsAdAvailable(now)) ==> isLoadingAd && pendingLoads == 1
      ensures isLoadingAd || IsAdAvailable(now)
    {
      if isLoadingAd || IsAdAvailable(now) {
        return;
      }
      isLoadingAd := true;
      pendingLoads := pendingLoads + 1;
    }

    /** `onAdLoaded` at time `now`: the ad is held, fresh, and loading is over. */
    method OnAdLoaded(now: int)
      requires Valid() && pendingLoads > 0
      modifies this
      ensures Valid()
      ensures hasAd && loadTime == now && !isLoadingAd && pendingLoads == 0
      ensures isShowingAd == old(isShowingAd)
      ensures forall later :: LoadedRecently(now, later) ==> IsAdAvailable(later)
    {
      hasAd := true;
      isLoadingAd := false;
      pendingLoads := pendingLoads - 1;
      loadTime := now;
    }

    /** `onAdFailedToLoad`: only the loading flag changes. */
    method OnAdFailedToLoad()
      requires Valid() && pendingLoads > 0
      modifies this
      ensures Valid()
      ensures !isLoadingAd && pendingLoads == 0
      ensures hasAd == old(hasAd) && isShowingAd == old(isShowingAd) && loadTime == old(loadTime)
    {
      isLoadingAd := false;
      pendingLoads := pendingLoads - 1;
    }

    /** `showAdIfAvailable(activity)` at time `now`. */
    method ShowAdIfAvailable(now: int) returns (shown: bool)
      requires Valid()
      modifies this
      ensures Valid()
      ensures hasAd == old(hasAd) && loadTime == old(loadTime)
      ensures old(isShowingAd) ==>
        !shown && isShowingAd && isLoadingAd == old(isLoadingAd) && pendingLoads == old(pendingLoads)
      ensures !old(isShowingAd) && !old(IsAdAvailable(now)) ==>
        !shown && !isShowingAd && isLoadingAd
        && (old(isLoadingAd) ==> pendingLoads == old(pendingLoads))
      ensures !old(isShowingAd) && old(IsAdAvailable(now)) ==>
        shown && isShowingAd && isLoadingAd == old(isLoadingAd) && pendingLoads == old(pendingLoads)
    {
      if isShowingAd {
        return false;
      }
      if !IsAdAvailable(now) {
        LoadAd(now);
        return false;
      }
      isShowingAd := true;
      shown := true;
    }

    /** `onAdShowedFullScreenContent` of the held ad. */
    method OnAdShowed()
      requires Valid() && hasAd
      modifies this
      ensures Valid() && isShowingAd
      ensures hasAd && isLoadingAd == old(isLoadingAd) && pendingLoads == old(pendingLoads)
      ensures loadTime == old(loadTime)
    {
      isShowingAd := true;
    }

    /** `onAdDismissedFullScreenContent` and `onAdFailedToShowFullScreenContent`
        at time `now`: drop the ad, stop showing and load the next one. */
    method OnAdClosed(now: int)
      requires Valid()
      modifies this
      ensures Valid()
      ensures !hasAd && !isShowingAd && isLoadingAd && pendingLoads == 1
      ensures loadTime == old(loadTime)
    {
      hasAd := false;
      isShowingAd := false;
      LoadAd(now);
    }
  }
}
