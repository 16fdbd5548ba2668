/** The image loader hook (src/hooks/useImageWithFallback.ts). A load of a URL that fails is
    retried up to `retryAttempts` more times; once a URL is exhausted the fallback is tried
    from attempt 0 if there is one and it is another URL; otherwise the hook ends in the
    error state. The outcome of each image load is an input: `ok(k)` says whether the `k`-th
    load of a chain succeeds. The retry delay is time and is not modelled; a chain runs to
    its end before anything else happens. */
module ImageFallback {
  import opened Common

  /** The hook's state. */
  datatype View = View(imageSrc: Option<string>, imageError: bool, imageLoading: bool, attempts: int)

  /** The options a chain depends on besides the URL. */
  datatype Config = Config(fallbackSrc: Option<string>, retryAttempts: int)

  /** Where a chain ends, and the URLs it loaded, in order. */
  datatype Settled = Settled(view: View, tried: seq<string>)

  const DefaultRetryAttempts: int := 2

  /** An optional text option is truthy. */
  predicate Given(s: Option<string>) {
    s.Some? && s.value != ""
  }

  /** How many retries a URL gets: `attempt < retryAttempts` never holds for a negative
      count. */
  function Retries(c: Config): nat {
    if c.retryAttempts < 0 then 0 else c.retryAttempts
  }

  /** `fallbackSrc && url !== fallbackSrc`. */
  predicate FallsBackFrom(c: Config, url: string) {
    Given(c.fallbackSrc) && url != c.fallbackSrc.value
  }

  /** The loads a chain at `url`, `attempt` may still start after the current one. */
  function Budget(c: Config, url: string, attempt: nat): nat
    requires attempt <= Retries(c)
  {
    (Retries(c) - attempt) + (if FallsBackFrom(c, url) then Retries(c) + 1 else 0)
  }

  /** `tryLoadImage(url, attempt)` and the calls it leads to, from view `v`, where the next
      load is the `k`-th of the chain. */
  function Chain(c: Config, v: View, url: string, attempt: nat, ok: nat -> bool, k: nat): Settled
    requires attempt <= Retries(c)
    decreases Budget(c, url, attempt)
  {
    var started := v.(imageLoading := true, imageError := false);
    if ok(k) then
      Settled(started.(imageSrc := Some(url), attempts := 0, imageLoading := false), [url])
    else if attempt < c.retryAttempts then
      var rest := Chain(c, started.(imageLoading := false, attempts := attempt + 1), url, attempt + 1, ok, k + 1);
      Settled(rest.view, [url] + rest.tried)
    else if FallsBackFrom(c, url) then
      var rest := Chain(c, started.(imageLoading := false), c.fallbackSrc.value, 0, ok, k + 1);
      Settled(rest.view, [url] + rest.tried)
    else
      Settled(started.(imageError := true, imageSrc := None, imageLoading := false), [url])
  }

  /** Every chain ends with loading cleared. It ends on its first successful load, showing
      that URL with no error and `attempts` reset; if its last load failed too, it ends in the
      error state with no image, on a URL that has no fallback to go to. */
  lemma {:induction false} ChainSettles(c: Config, v: View, url: string, attempt: nat, ok: nat -> bool, k: nat)
    requires attempt <= Retries(c)
    ensures var s := Chain(c, v, url, attempt, ok, k);
      var n := |s.tried|;
      n >= 1 && !s.view.imageLoading &&
      (forall j :: k <= j < k + n - 1 ==> !ok(j)) &&
      (ok(k + n - 1) ==> s.view == v.(imageSrc := Some(s.tried[n - 1]), imageError := false, imageLoading := false, attempts := 0)) &&
      (!ok(k + n - 1) ==> s.view.imageError && s.view.imageSrc.None? && !FallsBackFrom(c, s.tried[n - 1]))
    decreases Budget(c, url, attempt)
  {
    var started := v.(imageLoading := true, imageError := false);
    if ok(k) {
    } else if attempt < c.retryAttempts {
      var v' := started.(imageLoading := false, attempts := attempt + 1);
      ChainSettles(c, v', url, attempt + 1, ok, k + 1);
    } else if FallsBackFrom(c, url) {
      var v' := started.(imageLoading := false);
      ChainSettles(c, v', c.fallbackSrc.value, 0, ok, k + 1);
    }
  }

  /** The URLs a chain loads: `url` for the first `Retries - attempt + 1` loads at most, the
      fallback after that and only when there is one to go to; so no URL is loaded more than
      `Retries + 1` times and the chain ends within `Budget + 1` loads. */
  lemma {:induction false} ChainUrls(c: Config, v: View, url: string, attempt: nat, ok: nat -> bool, k: nat)
    requires attempt <= Retries(c)
    ensures var t := Chain(c, v, url, attempt, ok, k).tried;
      1 <= |t| <= Budget(c, url, attempt) + 1 &&
      (|t| > Retries(c) - attempt + 1 ==> FallsBackFrom(c, url)) &&
      forall i :: 0 <= i < |t| ==> t[i] == (if i <= Retries(c) - attempt then url else c.fallbackSrc.value)
    decreases Budget(c, url, attempt)
  {
    var started := v.(imageLoading := true, imageError := false);
    if ok(k) {
    } else if attempt < c.retryAttempts {
      var v' := started.(imageLoading := false, attempts := attempt + 1);
      ChainUrls(c, v', url, attempt + 1, ok, k + 1);
      var rest := Chain(c, v', url, attempt + 1, ok, k + 1).tried;
      var t := [url] + rest;
      forall i | 0 <= i < |t|
        ensures t[i] == (if i <= Retries(c) - attempt then url else c.fallbackSrc.value)
      {
        if i > 0 {
          assert t[i] == rest[i - 1];
        }
      }
    } else if FallsBackFrom(c, url) {
      assert attempt == Retries(c);
      var v' := started.(imageLoading := false);
      var fb := c.fallbackSrc.value;
      ChainUrls(c, v', fb, 0, ok, k + 1);
      var rest := Chain(c, v', fb, 0, ok, k + 1).tried;
      var t := [url] + rest;
      forall i | 0 <= i < |t|
        ensures t[i] == (if i <= Retries(c) - attempt then url else fb)
      {
        if i > 0 {
          assert t[i] == rest[i - 1];
        }
      }
    }
  }

  /** A chain whose load succeeds, or fails with nothing left to try, ends after that load. */
  lemma ChainStops(c: Config, v: View, url: string, attempt: nat, ok: nat -> bool, k: nat)
    requires attempt <= Retries(c)
    requires ok(k) || (attempt >= c.retryAttempts && !FallsBackFrom(c, url))
    ensures Chain(c, v, url, attempt, ok, k).tried == [url]
    ensures Chain(c, v, url, attempt, ok, k).view ==
      if ok(k) then v.(imageSrc := Some(url), attempts := 0, imageLoading := false, imageError := false)
      else v.(imageError := true, imageSrc := None, imageLoading := false)
  {
  }

  /** A failed load with retries left continues with the next attempt on the same URL. */
  lemma ChainRetries(c: Config, v: View, url: string, attempt: nat, ok: nat -> bool, k: nat)
    requires attempt < c.retryAttempts && !ok(k)
    ensures var next := Chain(c, v.(imageLoading := false, imageError := false, attempts := attempt + 1), url, attempt + 1, ok, k + 1);
      Chain(c, v, url, attempt, ok, k) == Settled(next.view, [url] + next.tried)
  {
  }

  /** A failed last attempt with a fallback to go to continues on the fallback from attempt 0. */
  lemma ChainFallsBack(c: Config, v: View, url: string, attempt: nat, ok: nat -> bool, k: nat)
    requires attempt <= Retries(c) && attempt >= c.retryAttempts && !ok(k) && FallsBackFrom(c, url)
    ensures var next := Chain(c, v.(imageLoading := false, imageError := false), c.fallbackSrc.value, 0, ok, k + 1);
      Chain(c, v, url, attempt, ok, k) == Settled(next.view, [url] + next.tried)
  {
  }

  lemma AppendShift(a: seq<string>, x: string, b: seq<string>)
    ensures (a + [x]) + b == a + ([x] + b)
  {
  }

  /** From attempt 0 a chain loads at most `2 * (retryAttempts + 1)` times, 6 with the
      default of 2 retries, and the URL itself at most 3 times. */
  lemma ChainIsBounded(c: Config, v: View, url: string, ok: nat -> bool)
    ensures |Chain(c, v, url, 0, ok, 0).tried| <= 2 * (Retries(c) + 1)
    ensures c.retryAttempts == DefaultRetryAttempts ==>
      var t := Chain(c, v, url, 0, ok, 0).tried;
      |t| <= 6 && forall i :: 3 <= i < |t| ==> t[i] != url
  {
    ChainUrls(c, v, url, 0, ok, 0);
  }

  /** The mount effect for a given `src`: the chain from `src`, or without a source the
      reset to no image, no error, not loading. */
  function AfterEffect(c: Config, src: Option<string>, v: View, ok: nat -> bool): (r: View)
    ensures !Given(src) ==> r == v.(imageSrc := None, imageError := false, imageLoading := false)
    ensures !r.imageLoading
    ensures Given(src) && ok(0) ==> r.imageSrc == Some(src.value) && !r.imageError && r.attempts == 0
  {
    if Given(src) then
      ChainSettles(c, v, src.value, 0, ok, 0);
      Chain(c, v, src.value, 0, ok, 0).view
    else v.(imageSrc := None, imageError := false, imageLoading := false)
  }

  /** `retry()`: `attempts` reset and the chain from `src` again; nothing without a source. */
  function AfterRetry(c: Config, src: Option<string>, v: View, ok: nat -> bool): (r: View)
    ensures !Given(src) ==> r == v
    ensures Given(src) ==> !r.imageLoading && (r.imageError <==> r.imageSrc.None?)
  {
    if Given(src) then
      ChainSettles(c, v.(attempts := 0), src.value, 0, ok, 0);
      Chain(c, v.(attempts := 0), src.value, 0, ok, 0).view
    else v
  }

  /** The hook's state and options. */
  class Loader {
    var src: Option<string>
    var fallbackSrc: Option<string>
    var retryAttempts: int
    var imageSrc: Option<string>
    var imageError: bool
    var imageLoading: bool
    var attempts: int

    function Current(): View
      reads this
    {
      View(imageSrc, imageError, imageLoading, attempts)
    }

    function Options(): Config
      reads this
    {
      Config(fallbackSrc, retryAttempts)
    }

    /** The initial state, before the mount effect. */
    constructor(src: Option<string>, fallbackSrc: Option<string>, retryAttempts: int)
      ensures this.src == src && this.fallbackSrc == fallbackSrc && this.retryAttempts == retryAttempts
      ensures Current() == View(None, false, false, 0)
    {
      this.src := src;
      this.fallbackSrc := fallbackSrc;
      this.retryAttempts := retryAttempts;
      imageSrc := None;
      imageError := false;
      imageLoading := false;
      attempts := 0;
    }

    /** `tryLoadImage(url, 0)` and every retry and fallback it leads to, one load per turn of
        the loop; `tried` lists the URLs loaded. */
    method TryLoadImage(url: string, ok: nat -> bool) returns (tried: seq<string>)
      modifies this
      ensures Current() == Chain(old(Options()), old(Current()), url, 0, ok, 0).view
      ensures tried == Chain(old(Options()), old(Current()), url, 0, ok, 0).tried
      ensures src == old(src) && Options() == old(Options())
    {
      ghost var c := Options();
      ghost var target := Chain(c, Current(), url, 0, ok, 0);
      var u := url;
      var attempt: nat := 0;
      var k: nat := 0;
      var done := false;
      tried := [];
      while !done
        invariant Options() == c && src == old(src)
        invariant attempt <= Retries(c)
        invariant !done ==>
          tried + Chain(c, Current(), u, attempt, ok, k).tried == target.tried &&
          Chain(c, Current(), u, attempt, ok, k).view == target.view
        invariant done ==> Current() == target.view && tried == target.tried
        decreases !done, Budget(c, u, attempt)
      {
        ghost var v := Current();
        imageLoading := true;
        imageError := false;
        if ok(k) {
          imageSrc := Some(u);
          attempts := 0;
          imageLoading := false;
          ChainStops(c, v, u, attempt, ok, k);
          tried := tried + [u];
          done := true;
        } else if attempt < retryAttempts {
          imageLoading := false;
          attempts := attempt + 1;
          ChainRetries(c, v, u, attempt, ok, k);
          AppendShift(tried, u, Chain(c, Current(), u, attempt + 1, ok, k + 1).tried);
          tried := tried + [u];
          attempt := attempt + 1;
          k := k + 1;
        } else if fallbackSrc.Some? && fallbackSrc.value != "" && u != fallbackSrc.value {
          imageLoading := false;
          ChainFallsBack(c, v, u, attempt, ok, k);
          AppendShift(tried, u, Chain(c, Current(), fallbackSrc.value, 0, ok, k + 1).tried);
          tried := tried + [u];
          u := fallbackSrc.value;
          attempt := 0;
          k := k + 1;
        } else {
          imageError := true;
          imageSrc := None;
          imageLoading := false;
          ChainStops(c, v, u, attempt, ok, k);
          tried := tried + [u];
          done := true;
        }
      }
    }

    /** The effect `[src, fallbackSrc, retryAttempts, retryDelay]` runs. */
    method RunEffect(ok: nat -> bool)
      modifies this
      ensures Current() == AfterEffect(old(Options()), old(src), old(Current()), ok)
      ensures src == old(src) && Options() == old(Options())
    {
      if src.Some? && src.value != "" {
        var _ := TryLoadImage(src.value, ok);
      } else {
        imageSrc := None;
        imageError := false;
        imageLoading := false;
      }
    }

    /** New options, after which the effect runs again. */
    method OptionsChanged(src': Option<string>, fallbackSrc': Option<string>, retryAttempts': int, ok: nat -> bool)
      modifies this
      ensures src == src' && Options() == Config(fallbackSrc', retryAttempts')
      ensures Current() == AfterEffect(Config(fallbackSrc', retryAttempts'), src', old(Current()), ok)
    {
      src := src';
      fallbackSrc := fallbackSrc';
      retryAttempts := retryAttempts';
      RunEffect(ok);
    }

    /** `retry()`. */
    method Retry(ok: nat -> bool)
      modifies this
      ensures Current() == AfterRetry(old(Options()), old(src), old(Current()), ok)
      ensures src == old(src) && Options() == old(Options())
    {
      if src.Some? && src.value != "" {
        attempts := 0;
        var _ := TryLoadImage(src.value, ok);
      }
    }
  }
}
