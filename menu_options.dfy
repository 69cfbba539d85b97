/**
 * The option lists of the "go to page" select menu (lines 37-47 and 57-65 of
 * SapphireTemplatePaginatedMessage.ts). A select menu holds at most 25
 * options: up to 25 pages get one option each, labelled through the
 * navigator's label hook; beyond that the pages are sampled with a stride of
 * round(n / 25) and the options are labelled "Page <k>".
 */
module MenuOptions {
  import opened Wrappers
  import opened Decimal

  /** How many options one select menu can hold. */
  const MaxOptions: nat := 25

  /** A channel; `guild` is present exactly when the channel is guild based. */
  datatype Channel = Channel(id: nat, guild: Option<nat>)

  /** What the label hook is told besides the page number: viewer, channel and guild. */
  datatype MenuContext = MenuContext(author: nat, channel: Option<Channel>, guild: Option<nat>)

  /** An option of a select menu; `text` is discord.js' `label`, a Dafny keyword. */
  datatype SelectOption = SelectOption(text: string, value: string, description: Option<string>)

  /** `selectMenuOptions`: given a 1-based page number and the context, the option to show. */
  type LabelHook = (nat, MenuContext) -> SelectOption

  function Min(a: nat, b: nat): nat {
    if a <= b then a else b
  }

  /** The page index an option stands for. */
  function OptionIndex(o: SelectOption): nat
    requires IsDigits(o.value)
  {
    ParseNat(o.value)
  }

  /** `Math.round(n / 25)` on a non-negative n: n / 25 rounded half up. */
  function Stride(n: nat): (s: nat)
    ensures MaxOptions * (2 * s - 1) <= 2 * n < MaxOptions * (2 * s + 1)
    ensures n > MaxOptions ==> s >= 1
  {
    (n + MaxOptions / 2) / MaxOptions
  }

  function CeilDiv(a: nat, b: nat): nat
    requires b > 0
  {
    (a + b - 1) / b
  }

  /** How many options the sampled menu of n pages has. */
  function SampleCount(n: nat): nat
    requires n > MaxOptions
  {
    Min(MaxOptions, CeilDiv(n, Stride(n)))
  }

  /** The sampled option for page index i. */
  function SampledOption(i: nat): SelectOption {
    SelectOption("Page " + NatToString(i + 1), NatToString(i), None)
  }

  /** The first c sampled options at stride s. */
  function SampledPrefix(c: nat, s: nat): seq<SelectOption> {
    seq(c, k requires 0 <= k < c => SampledOption(k * s))
  }

  /** The options of the menu for more than 25 pages. */
  function SampledOptions(n: nat): seq<SelectOption>
    requires n > MaxOptions
  {
    SampledPrefix(SampleCount(n), Stride(n))
  }

  /** Option for page index `index` of the standard menu: the hook's option with `value` replaced. */
  function PageOption(hook: LabelHook, ctx: MenuContext, index: nat): SelectOption {
    hook(index + 1, ctx).(value := NatToString(index))
  }

  /** `pages.slice(0, 25).map(...)`: the options of the menu for n pages when n <= 25. */
  function StandardOptions(n: nat, hook: LabelHook, ctx: MenuContext): seq<SelectOption> {
    seq(Min(n, MaxOptions), k requires 0 <= k < Min(n, MaxOptions) => PageOption(hook, ctx, k))
  }

  /**
   * The chunked loop of lines 38-47: start at page 0, step by the stride while
   * below n, and stop once 25 options exist.
   */
  method ChunkedOptions(n: nat) returns (options: seq<SelectOption>)
    requires n > MaxOptions
    ensures options == SampledOptions(n)
  {
    options := [];
    var chunkSize := Stride(n);
    var i := 0;
    while i < n
      invariant |options| <= MaxOptions
      invariant i == |options| * chunkSize
      invariant options == SampledPrefix(|options|, chunkSize)
      invariant |options| > 0 ==> i - chunkSize < n
      decreases n - i
    {
      if |options| >= MaxOptions {
        break;
      }
      SampledPrefixSnoc(|options|, chunkSize);
      MulSucc(|options|, chunkSize);
      options := options + [SampledOption(i)];
      i := i + chunkSize;
    }
    SampleCountExact(n, |options|);
  }

  lemma MulSucc(c: nat, s: nat)
    ensures (c + 1) * s == c * s + s
  {
  }

  lemma MulMonotone(a: nat, b: nat, s: nat)
    requires a <= b
    ensures a * s <= b * s
  {
    assert b * s == a * s + (b - a) * s;
  }

  lemma MulCancel(x: int, y: int, s: nat)
    requires s > 0 && x * s < y * s
    ensures x < y
  {
    assert (y - x) * s == y * s - x * s;
  }

  lemma DivBounds(p: nat, s: nat)
    requires s > 0
    ensures (p / s) * s <= p < (p / s) * s + s
  {
    var k, r := p / s, p % s;
    assert p == k * s + r && 0 <= r < s;
  }

  /** The rounded-up quotient q is a number with q * b >= a > q * b - b. */
  lemma CeilDivBounds(a: nat, b: nat)
    requires b > 0
    ensures CeilDiv(a, b) * b >= a
    ensures CeilDiv(a, b) * b - b < a
  {
    var q, r := (a + b - 1) / b, (a + b - 1) % b;
    assert a + b - 1 == q * b + r && 0 <= r < b;
  }

  /** ... and the only one. */
  lemma CeilDivUnique(a: nat, b: nat, c: nat)
    requires b > 0
    requires c * b >= a && c * b - b < a
    ensures c == CeilDiv(a, b)
  {
    var q := CeilDiv(a, b);
    CeilDivBounds(a, b);
    assert (c - 1) * b == c * b - b;
    MulCancel(c - 1, q, b);
    assert (q - 1) * b == q * b - b;
    MulCancel(q - 1, c, b);
  }

  /** What the chunked loop leaves behind when it exits: exactly SampleCount(n) options. */
  lemma SampleCountExact(n: nat, c: nat)
    requires n > MaxOptions
    requires 0 < c <= MaxOptions
    requires c * Stride(n) - Stride(n) < n
    requires c == MaxOptions || c * Stride(n) >= n
    ensures c == SampleCount(n)
  {
    var s := Stride(n);
    var q := CeilDiv(n, s);
    CeilDivBounds(n, s);
    if c * s >= n {
      CeilDivUnique(n, s, c);
    } else {
      assert (c - 1) * s == c * s - s;
      MulCancel(c - 1, q, s);
    }
  }

  lemma SampledPrefixSnoc(c: nat, s: nat)
    ensures SampledPrefix(c + 1, s) == SampledPrefix(c, s) + [SampledOption(c * s)]
  {
  }

  /**
   * The sampled menu holds between 1 and 25 options, and it stops either at
   * 25 options or once the next step would pass the last page.
   */
  lemma SampledOptionsCount(n: nat)
    requires n > MaxOptions
    ensures 1 <= |SampledOptions(n)| <= MaxOptions
    ensures |SampledOptions(n)| == MaxOptions || |SampledOptions(n)| * Stride(n) >= n
  {
    var s := Stride(n);
    CeilDivBounds(n, s);
    MulCancel(0, CeilDiv(n, s), s);
  }

  /**
   * Option k of the sampled menu stands for page index k * stride, which is a
   * page that exists, and its label is "Page " followed by that page's 1-based
   * number.
   */
  lemma SampledOptionValues(n: nat, k: nat)
    requires n > MaxOptions
    requires k < |SampledOptions(n)|
    ensures IsDigits(SampledOptions(n)[k].value)
    ensures OptionIndex(SampledOptions(n)[k]) == k * Stride(n) < n
    ensures SampledOptions(n)[k].text == "Page " + NatToString(OptionIndex(SampledOptions(n)[k]) + 1)
    ensures SampledOptions(n)[k].description == None
  {
    var s := Stride(n);
    var q := CeilDiv(n, s);
    CeilDivBounds(n, s);
    MulMonotone(k + 1, q, s);
    assert (k + 1) * s == k * s + s;
    ParseNatToString(k * s);
  }

  /** The sampled menu's first option is page 0, and its page indices strictly increase. */
  lemma SampledOptionsIncreasing(n: nat, j: nat, k: nat)
    requires n > MaxOptions
    requires j < k < |SampledOptions(n)|
    ensures SampledOptions(n)[0].value == "0"
    ensures IsDigits(SampledOptions(n)[j].value) && IsDigits(SampledOptions(n)[k].value)
    ensures OptionIndex(SampledOptions(n)[j]) < OptionIndex(SampledOptions(n)[k])
  {
    var s := Stride(n);
    SampledOptionValues(n, j);
    SampledOptionValues(n, k);
    MulMonotone(j + 1, k, s);
    assert (j + 1) * s == j * s + s;
  }

  /**
   * When the sampled menu was not cut off at 25 options, every page p lies in
   * the chunk of exactly one option: option p / stride, whose page is at most
   * p and less than one stride before it.
   */
  lemma SampledOptionsCover(n: nat, p: nat)
    requires n > MaxOptions
    requires |SampledOptions(n)| * Stride(n) >= n
    requires p < n
    ensures p / Stride(n) < |SampledOptions(n)|
    ensures IsDigits(SampledOptions(n)[p / Stride(n)].value)
    ensures OptionIndex(SampledOptions(n)[p / Stride(n)]) <= p < OptionIndex(SampledOptions(n)[p / Stride(n)]) + Stride(n)
  {
    var s := Stride(n);
    var k := p / s;
    DivBounds(p, s);
    MulCancel(k, |SampledOptions(n)|, s);
    SampledOptionValues(n, k);
  }

  /**
   * When the sampled menu was cut off at 25 options, the page at 25 strides
   * exists and lies at least one stride past every option's page: no option's
   * chunk holds it.
   */
  lemma SampledOptionsMissTail(n: nat, k: nat)
    requires n > MaxOptions
    requires |SampledOptions(n)| * Stride(n) < n
    requires k < |SampledOptions(n)|
    ensures |SampledOptions(n)| == MaxOptions
    ensures IsDigits(SampledOptions(n)[k].value)
    ensures OptionIndex(SampledOptions(n)[k]) + Stride(n) <= |SampledOptions(n)| * Stride(n) < n
  {
    SampledOptionsCount(n);
    SampledOptionValues(n, k);
    MulMonotone(k + 1, |SampledOptions(n)|, Stride(n));
    MulSucc(k, Stride(n));
  }

  /**
   * With 37 pages the stride rounds down to 1, so the menu is cut off at 25
   * options and its last option is page index 24: pages 25 to 36 have no option.
   */
  lemma SampledMenuOf37Pages()
    ensures Stride(37) == 1
    ensures |SampledOptions(37)| == MaxOptions
    ensures IsDigits(SampledOptions(37)[MaxOptions - 1].value)
    ensures OptionIndex(SampledOptions(37)[MaxOptions - 1]) == 24
  {
    SampledOptionValues(37, 24);
  }

  /**
   * With at most 25 pages the standard menu has one option per page, in page
   * order: option k stands for page index k, and keeps everything else the
   * label hook gave for the 1-based page number k + 1.
   */
  lemma StandardOptionsShape(n: nat, hook: LabelHook, ctx: MenuContext)
    requires n <= MaxOptions
    ensures |StandardOptions(n, hook, ctx)| == n
    ensures forall k :: 0 <= k < n ==>
      IsDigits(StandardOptions(n, hook, ctx)[k].value) &&
      OptionIndex(StandardOptions(n, hook, ctx)[k]) == k &&
      StandardOptions(n, hook, ctx)[k].text == hook(k + 1, ctx).text &&
      StandardOptions(n, hook, ctx)[k].description == hook(k + 1, ctx).description
  {
    forall k | 0 <= k < n
      ensures OptionIndex(StandardOptions(n, hook, ctx)[k]) == k
    {
      ParseNatToString(k);
    }
  }
}
