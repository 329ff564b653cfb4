# Stock portfolio viewer — a Dafny model of its display logic

This project models the logic of a portfolio viewer web app, leaving the
rendering out. It covers:

- the display formatters (yen amounts with digit grouping, signed gains,
  and percentages with a fixed number of decimals);
- the positive, negative and zero classification of a gain, with its colour table;
- the canonical display order of the holdings: a copy of the holdings,
  stably sorted by holding ratio, largest first;
- the focus coordinator of the page:
  - clicking a card or a segment toggles or switches the focus;
  - clicking outside clears it, through a document listener that exists only while something is focused;
  - the chart and the list stop propagation;
- the card and segment flags derived from the focus, the chart palette,
  sizes and tooltip condition;
- the chart tooltip's hover state and its position rule, which flips the
  tooltip to the left near the right edge of the window;
- the breakpoint classification of the window width, and the leading- and
  trailing-edge resize throttle;
- the theme store:
  - it starts at a fixed value and is then hydrated from storage, falling back to the system preference;
  - `setTheme` and `toggleTheme` persist the theme and mirror it as the `dark` class;
  - the context accessor fails outside its provider;
- the onboarding tour:
  - the listener registry and the completed flag in storage;
  - the `isActive` flag and the single live tour driver;
  - the provider's 500 ms auto-start, and its accessor that fails outside the provider.

Numbers are modelled as follows:

- a JavaScript number is `Num`: a finite integer, `NaN`, or one of the two infinities;
- yen amounts are integers;
- `gain_ratio` is an integer in hundredths of a percent and `holding_ratio` an integer in tenths, as the response type documents them;
- `toLocaleString('ja-JP')` on an integer groups its digits in threes with commas;
- `toFixed(k)` on a value in units of 10^-k prints the integer part, a point and exactly k digits.

Stateful code is modelled as classes whose methods change fields, and so is
the browser state it touches:

- localStorage is a `map<string, string>`;
- the root element's `dark` class is a `bool`;
- the browser's timer table maps a timer handle to its due time;
- `Date.now()`, `window.innerWidth` and the `prefers-color-scheme` query are method arguments.

Each such method is proved against the pure functions that state its rule.

Modules:

- `Numerals`: decimal numerals, comma grouping and fixed-point numerals, with reading-back functions.
- `Formatters`: the formatters and `getGainStatus`.
- `GainStatusStyles`: the colour table and its lookup.
- `PortfolioTypes`: the response's data types.
- `AssetUtils`: the display order.
- `AssetList` and `PortfolioChart`: derived view data.
- `PortfolioInteractive`: the focus coordinator.
- `ChartTooltip`: the tooltip hover state.
- `Breakpoint`: the breakpoint classification and the throttle.
- `ThemeHook` and `ThemeProvider`: the theme.
- `Onboarding` and `OnboardingProvider`: the onboarding tour.
- `Wrappers`: `Option` and `Result`.

## Model

| member | source | states |
|---|---|---|
| Numerals.DecimalValue | src/utils/formatters.ts:40 | the decimal numeral of n reads back as n |
| Numerals.Padded | src/utils/formatters.ts:51 | a value below 10^w padded to w digits is exactly w digits and reads back as the value |
| Numerals.GroupedDigits | src/utils/formatters.ts:40 | deleting the commas from the grouped numeral of n gives the decimal numeral of n |
| Numerals.GroupedShape | src/utils/formatters.ts:40 | the grouped numeral starts with a digit; it holds digits and commas only, with a comma exactly before each group of three digits counted from the right |
| Numerals.WithPointParts | src/utils/formatters.ts:51 | a k-place numeral is an integer part, a point and k digits whose combined value is v |
| Numerals.FixedReadsBack | src/utils/formatters.ts:61 | a fixed-point numeral with a suffix has a digit run without a leading zero, a point, exactly `places` digits and the suffix, and its value is v |
| Numerals.Grouped | src/utils/formatters.ts:40 | the grouped numeral of a natural is non-empty and starts with a digit |
| Numerals.LocaleString | src/utils/formatters.ts:40 | non-empty; it starts with '-' iff the integer is negative, and otherwise with a digit |
| Numerals.Fixed | src/utils/formatters.ts:61 | non-empty; it starts with '-' iff the value is negative, and otherwise with a digit |
| Numerals.FixedNat | src/utils/formatters.ts:51 | the fixed-point numeral of a natural is non-empty and starts with a digit |
| Numerals.WithPoint | src/utils/formatters.ts:51 | a k-place numeral has at least k + 2 characters and starts with a digit |
| Formatters.NormalizeNumber | src/utils/formatters.ts:8-19 | a finite number is kept; NaN and the infinities become 0 |
| Formatters.SignPrefix | src/utils/formatters.ts:28-30 | the sign is "+" iff v > 0, "-" iff v < 0, and empty iff v = 0 |
| Formatters.FormatWithSign | src/utils/formatters.ts:27-31 | the result is the sign of the value, then the formatter applied to its absolute value; the formatter only takes naturals, so it is never given a negative |
| Formatters.GetGainStatus | src/utils/formatters.ts:92-101 | positive iff the normalised amount is > 0, negative iff < 0, zero iff = 0; the colour class is that status's class |
| Formatters.NonFiniteIsZero | src/utils/formatters.ts:37-101 | for NaN and the infinities every formatter and the classifier give what they give for 0: "0", "0.00%", "0.0%", "0", "¥0" and zero |
| Formatters.FormatCurrencyGrouping | src/utils/formatters.ts:39-41 | for n >= 0 the output is well grouped, and deleting its commas gives the decimal numeral of n, whose value is n |
| Formatters.GroupedStartsWithDigit | src/utils/formatters.ts:40 | a grouped numeral is non-empty and starts with a digit |
| Formatters.FormatGainAmountSign | src/utils/formatters.ts:70-73 | the first character is '+' iff the amount is > 0 and '-' iff < 0; the rest is formatCurrency of the absolute amount |
| Formatters.FormatGainAmountWithCurrencySign | src/utils/formatters.ts:81-84 | sign (same rule), then '¥', then formatCurrency of the absolute amount; it starts with '¥' iff the amount is 0 |
| Formatters.FormatGainRatioShape | src/utils/formatters.ts:49-52 | sign (same rule), then an integer part without a leading zero, a point, exactly two digits and '%', whose value is the absolute ratio in hundredths |
| Formatters.FormatHoldingRatioShape | src/utils/formatters.ts:60-62 | for a ratio >= 0: no sign, an integer part without a leading zero, a point, exactly one digit and '%', whose value is the ratio in tenths |
| Formatters.FormatCurrencyExamples | src/utils/formatters.test.ts:15-25 | 999 gives "999" and 0 gives "0" |
| Formatters.FormatCurrencyThousandsExample | src/utils/formatters.test.ts:69-71 | 3000 gives "3,000", the digits after the sign in the -3000 case |
| Formatters.FormatGainAmountPositiveExample | src/utils/formatters.ts:70-73 | 5242 gives "+5,242" |
| Formatters.FormatGainAmountNegativeExample | src/utils/formatters.test.ts:69-71 | -3000 gives "-3,000" |
| Formatters.FormatGainAmountWithCurrencyExamples | src/utils/formatters.ts:76-84 | -3000 gives "-¥3,000" |
| Formatters.FormatGainAmountWithCurrencyZeroExample | src/utils/formatters.ts:76-84 | 0 gives "¥0", with no sign |
| Formatters.FormatGainRatioPositiveExample | src/utils/formatters.test.ts:29-31 | 12.87 gives "+12.87%" |
| Formatters.FormatGainRatioNegativeExample | src/utils/formatters.test.ts:33-35 | -5.5 gives "-5.50%" |
| Formatters.FormatHoldingRatioExamples | src/utils/formatters.test.ts:47-53 | 39.8 gives "39.8%" and 25 gives "25.0%" |
| GainStatusStyles.GetGainStatusColor | src/utils/gainStatusStyles.ts:20-22 | every status is in the table, and the lookup returns its entry |
| GainStatusStyles.GainStatusColorValues | src/utils/gainStatusStyles.ts:9-13 | positive, negative and zero map to the three class strings of the table |
| GainStatusStyles.GainStatusColorInjective | src/utils/gainStatusStyles.ts:9-13 | two statuses have the same colour iff they are the same status |
| GainStatusStyles.GainStatusTablesAgree | src/utils/formatters.ts:95-99 | for every amount, the table's colour for getGainStatus's status is the colour getGainStatus returns |
| AssetUtils.Insert | src/utils/assetUtils.ts:9 | inserting gives a sequence one longer |
| AssetUtils.InsertPermutes | src/utils/assetUtils.ts:9 | inserting x adds x and nothing else: the multiset grows by exactly x |
| AssetUtils.InsertSorted | src/utils/assetUtils.ts:9 | inserting into a sequence ordered by the comparator keeps it ordered |
| AssetUtils.SortAssetsByHoldingRatio | src/utils/assetUtils.ts:8-10 | the result has as many holdings as the input |
| AssetUtils.SortPermutes | src/utils/assetUtils.ts:8-10 | the result holds the same multiset of holdings as the input |
| AssetUtils.SortIsSorted | src/utils/assetUtils.ts:9 | the result is ordered by the comparator, the largest holding ratio first |
| AssetUtils.InsertWithRatio | src/utils/assetUtils.ts:9 | inserting x keeps the order of the holdings of every ratio; x goes in front of those of its own ratio |
| AssetUtils.SortIsStable | src/utils/assetUtils.ts:9 | for a ratio r, the holdings with ratio r appear in the result in their input order |
| AssetUtils.StableSort | src/utils/assetUtils.ts:9 | stability for every ratio at once |
| AssetUtils.SortOfSorted | src/utils/assetUtils.ts:9 | an input already ordered by the comparator comes back unchanged |
| AssetUtils.SortIdempotent | src/utils/assetUtils.ts:9 | sorting the result again returns an equal sequence |
| AssetUtils.HeadsAgree | src/utils/assetUtils.ts:9 | two ordered sequences that agree on the order within every ratio start with the same holding |
| AssetUtils.TailsSameOrder | src/utils/assetUtils.ts:9 | dropping a common head keeps the two sequences in agreement within every ratio |
| AssetUtils.StableOrderUnique | src/utils/assetUtils.ts:9 | two ordered sequences that agree on the order within every ratio are equal |
| AssetUtils.SortIsTheStableOrder | src/utils/assetUtils.ts:9 | any ordered arrangement that keeps the input order within each ratio is the result |
| AssetUtils.SortCons | src/utils/assetUtils.ts:9 | sorting a holding in front of a sequence inserts it into the sorted sequence |
| AssetUtils.InsertBehind | src/utils/assetUtils.ts:9 | a holding that ranks below the head is placed behind it |
| AssetUtils.SortExamples | src/utils/assetUtils.test.ts:41-56 | empty gives empty; any single holding comes back alone |
| AssetUtils.SortDescendingExample | src/utils/assetUtils.test.ts:18-30 | any three holdings whose ratios arrive as low, high, middle come out as high, middle, low |
| AssetUtils.SortEqualRatiosExample | src/utils/assetUtils.test.ts:58-71 | any three holdings of equal ratio keep their order |
| AssetList.AssetListCards | src/app/_components/AssetList.tsx:28-53 | one card per holding; card i shows the i-th holding of the display order |
| AssetList.CardsInDisplayOrder | src/app/_components/AssetList.tsx:28-50 | cards are in non-increasing holding ratio and hold exactly the input holdings; colorIndex is the position, and the click reports the position when a handler is given |
| AssetList.CardFlags | src/app/_components/AssetList.tsx:40-41 | card i is focused iff focus = i, and dimmed iff focus is some j != i; never both; neither without focus |
| AssetList.AtMostOneFocused | src/app/_components/AssetList.tsx:38-41 | two focused cards are the same card |
| AssetList.FocusInRange | src/app/_components/AssetList.tsx:38-41 | with the focus on a real position, exactly that card is focused and all others are dimmed |
| AssetList.FocusOutOfRange | src/app/_components/AssetList.tsx:38-41 | with the focus past the end, no card is focused and all are dimmed |
| PortfolioChart.ChartSizesWellFormed | src/app/_components/PortfolioChart.tsx:24-28 | every breakpoint has a size; inner radius < outer radius; the centre is as wide as the hole; wider breakpoints have larger charts |
| PortfolioChart.SegmentFill | src/app/_components/PortfolioChart.tsx:172 | a colour exists iff the palette is non-empty, and it is the palette entry at index mod palette length |
| PortfolioChart.ChartData | src/app/_components/PortfolioChart.tsx:107-176 | one segment per holding; segment i is the i-th holding of the display order, named by its ticker, valued by its ratio, at full opacity iff nothing or i is focused |
| PortfolioChart.SegmentsMatchCards | src/app/_components/PortfolioChart.tsx:107-119 | segment i and card i show the same holding and report the same index; the segment is at full opacity iff the card is not dimmed |
| PortfolioChart.FocusedSegments | src/app/_components/PortfolioChart.tsx:166-168 | without a focus every segment is at full opacity; with one, exactly the focused segment is |
| PortfolioChart.PaletteInBounds | src/app/_components/PortfolioChart.tsx:172 | with a non-empty palette every segment has a colour taken from the palette |
| PortfolioChart.GainInfoColorClass | src/app/_components/PortfolioChart.tsx:122 | the gain figures' class is the table colour of getGainStatus(totalGainAmount) |
| PortfolioChart.FloatingTooltip | src/app/_components/PortfolioChart.tsx:224-238 | the tooltip exists iff a holding is hovered and a document exists; it shows that holding at the cursor position |
| PortfolioInteractive.ToggleFocus | src/app/_components/PortfolioInteractive.tsx:27-30 | from Some(i), clicking i gives None; from anything else it gives Some(i) |
| PortfolioInteractive.ToggleInvolution | src/app/_components/PortfolioInteractive.tsx:29 | from None or Some(i), clicking i twice restores the state |
| PortfolioInteractive.ToggleSwitches | src/app/_components/PortfolioInteractive.tsx:29 | from Some(i), clicking j != i gives Some(j) directly |
| PortfolioInteractive.Next | src/app/_components/PortfolioInteractive.tsx:27-61 | card and segment clicks toggle; wrapper and chart clicks change nothing; the clickable centre and outside clicks clear |
| PortfolioInteractive.RunFocusWasClicked | src/app/_components/PortfolioInteractive.tsx:24-47 | after any click sequence, a focused index is the initial one or was clicked in the sequence |
| PortfolioInteractive.RunStaysInRange | src/app/_components/PortfolioInteractive.tsx:24-35 | if every clicked index is below n, the focus stays below n |
| PortfolioInteractive.RunLast | src/app/_components/PortfolioInteractive.tsx:24-47 | a sequence runs as its prefix followed by its last click |
| PortfolioInteractive.OutsideClears | src/app/_components/PortfolioInteractive.tsx:38-47 | a sequence that ends with an outside click ends unfocused |
| PortfolioInteractive.StopPropagationKeepsSwitch | src/app/_components/PortfolioInteractive.tsx:61 | with stopPropagation, a click on card j while i is focused focuses j; without it, the focus would be lost |
| PortfolioInteractive.FocusCoordinator.constructor | src/app/_components/PortfolioInteractive.tsx:24 | focus starts as None, with no listener |
| PortfolioInteractive.FocusCoordinator.SyncListener | src/app/_components/PortfolioInteractive.tsx:38-47 | the listener is registered iff something is focused; the focus is unchanged |
| PortfolioInteractive.FocusCoordinator.HandleAssetClick | src/app/_components/PortfolioInteractive.tsx:27-30 | the focus becomes ToggleFocus of the old focus, and the listener follows it |
| PortfolioInteractive.FocusCoordinator.HandleClearFocus | src/app/_components/PortfolioInteractive.tsx:33-35 | from any state the focus becomes None, and the listener is removed |
| PortfolioInteractive.FocusCoordinator.Click | src/app/_components/PortfolioInteractive.tsx:27-61 | the new focus is Next of the old focus, and the listener stays registered iff focused |
| ChartTooltip.TooltipAnchor | src/app/_hooks/useChartTooltip.ts:48-59 | y = clientY + 15; x = clientX + 15, unless clientX + 15 + 200 > innerWidth, when x = clientX - 215 |
| ChartTooltip.AnchorFits | src/app/_hooks/useChartTooltip.ts:54-56 | unflipped, the tooltip ends within the window; flipped, it ends left of the cursor |
| ChartTooltip.AnchorAtEdge | src/app/_hooks/useChartTooltip.ts:54 | the flip is strict: exactly reaching the edge does not flip, one pixel more does |
| ChartTooltip.AnchorMayBeNegative | src/app/_hooks/useChartTooltip.ts:54-56 | a cursor at (200, 100) in a 300-pixel window gives (-15, 115); nothing clamps the position |
| ChartTooltip.TooltipState.constructor | src/app/_hooks/useChartTooltip.ts:33-34 | the position starts at (0, 0), with nothing hovered |
| ChartTooltip.TooltipState.HandlePieMouseEnter | src/app/_hooks/useChartTooltip.ts:37-45 | the hovered holding is a copy equal to the argument; the position is unchanged |
| ChartTooltip.TooltipState.HandleChartMouseMove | src/app/_hooks/useChartTooltip.ts:48-59 | the position becomes the anchor of the cursor; the hovered holding is unchanged |
| ChartTooltip.TooltipState.HandleChartMouseLeave | src/app/_hooks/useChartTooltip.ts:62-64 | nothing is hovered; the position is unchanged |
| Breakpoint.GetBreakpointFromWidth | src/app/_hooks/useBreakpoint.ts:14-22 | mobile iff width < 640, tablet iff 640 <= width < 1024, desktop iff width >= 1024 |
| Breakpoint.Rank | src/app/_hooks/useBreakpoint.ts:6 | the breakpoints ranked from narrow to wide |
| Breakpoint.BreakpointMonotone | src/app/_hooks/useBreakpoint.ts:14-22 | a wider window never has a lower-ranked breakpoint |
| Breakpoint.BreakpointBoundaries | src/app/_hooks/useBreakpoint.ts:14-22 | 639 is mobile, 640 and 1023 are tablet, 1024 is desktop |
| Breakpoint.InitialBreakpoint | src/app/_hooks/useBreakpoint.ts:96-101 | desktop without a window, otherwise the breakpoint of its width |
| Breakpoint.TrailingDelay | src/app/_hooks/useBreakpoint.ts:67-70 | a deferred call's delay is positive and ends exactly one interval after the last execution |
| Breakpoint.Throttle.constructor | src/app/_hooks/useBreakpoint.ts:35-40 | lastExecutedAt is 0, with no timer handle, nothing pending, no run logged and the next timer handle 1 |
| Breakpoint.Throttle.ClearTimeout | src/app/_hooks/useBreakpoint.ts:64-66 | the named timer is no longer pending; nothing else changes |
| Breakpoint.Throttle.ExecuteWithThrottle | src/app/_hooks/useBreakpoint.ts:49-72 | once an interval has elapsed, the callback runs now and lastExecutedAt becomes now; otherwise any pending timer is cancelled and exactly one timer is pending, due one interval after the last execution |
| Breakpoint.Throttle.Fire | src/app/_hooks/useBreakpoint.ts:67-70 | the pending timer fires: the callback runs and lastExecutedAt becomes the firing time; the stale handle is kept |
| Breakpoint.Throttle.Cleanup | src/app/_hooks/useBreakpoint.ts:77-82 | no timer is pending and the handle is cleared; lastExecutedAt is unchanged |
| Breakpoint.BreakpointHook.constructor | src/app/_hooks/useBreakpoint.ts:96-104 | the breakpoint starts as the initial one and the listener is added; the fresh throttle has lastExecutedAt 0, no timer handle, nothing pending, no run logged and the next handle 1 |
| Breakpoint.BreakpointHook.Resize | src/app/_hooks/useBreakpoint.ts:107-116 | once an interval has elapsed, the breakpoint is recomputed from the width now and lastExecutedAt becomes now, with the timers untouched; otherwise the breakpoint and lastExecutedAt are kept, any pending timer is cancelled, and exactly one timer is pending, due one interval after the last execution |
| Breakpoint.BreakpointHook.FireTimer | src/app/_hooks/useBreakpoint.ts:109-115 | the breakpoint becomes that of the width at firing time; the run is logged, lastExecutedAt becomes the firing time and no timer is pending; the stale handle and the next timer handle are kept |
| Breakpoint.BreakpointHook.Unmount | src/app/_hooks/useBreakpoint.ts:120-123 | the listener is removed, no timer is pending, and lastExecutedAt, the execution log, the next timer handle and the breakpoint are kept |
| ThemeHook.ThemeName | src/app/_hooks/useTheme.ts:6 | a theme is stored as "light" or "dark" |
| ThemeHook.ParseTheme | src/app/_hooks/useTheme.ts:40-43 | a stored string names a theme iff it is exactly "light" or "dark", and then names that theme |
| ThemeHook.ParseThemeName | src/app/_hooks/useTheme.ts:86-89 | a stored theme reads back as itself |
| ThemeHook.GetSystemTheme | src/app/_hooks/useTheme.ts:28-31 | dark iff there is a window and it prefers dark |
| ThemeHook.GetStoredTheme | src/app/_hooks/useTheme.ts:36-47 | light without a window; an exact "dark" or "light" is used as stored; anything else falls back to the system theme |
| ThemeHook.StoredThemeReadsBack | src/app/_hooks/useTheme.ts:36-47 | after setTheme(t), the next start-up reads t back, whatever the system prefers |
| ThemeHook.Toggled | src/app/_hooks/useTheme.ts:94 | the toggled theme differs from the current one |
| ThemeHook.ToggledTwice | src/app/_hooks/useTheme.ts:93-95 | toggling twice restores the theme |
| ThemeHook.SetThemeKeepsOtherKeys | src/app/_hooks/useTheme.ts:89 | setTheme leaves every storage key other than "theme" unchanged |
| ThemeHook.ThemeStore.constructor | src/app/_hooks/useTheme.ts:72-73 | the first state is light and not hydrated |
| ThemeHook.ThemeStore.ApplyThemeToDom | src/app/_hooks/useTheme.ts:52-61 | the dark class is present iff the theme is dark |
| ThemeHook.ThemeStore.Hydrate | src/app/_hooks/useTheme.ts:77-83 | the theme becomes the stored-or-system theme; the class follows and the store is hydrated |
| ThemeHook.ThemeStore.SetTheme | src/app/_hooks/useTheme.ts:86-90 | theme := t, storage["theme"] := t's name, and the dark class is present iff t is dark |
| ThemeHook.ThemeStore.ToggleTheme | src/app/_hooks/useTheme.ts:93-95 | the theme becomes the other one, and is persisted and mirrored |
| ThemeHook.ToggleTwice | src/app/_hooks/useTheme.ts:93-95 | two toggles restore the theme and its class |
| ThemeProvider.Provider.constructor | src/app/_hooks/useTheme.tsx:80-81 | the provided value starts as light, not dark and not hydrated; storage and the dark class are as given |
| ThemeProvider.Provider.Value | src/app/_hooks/useTheme.tsx:105-111 | isDarkMode holds iff the theme is dark; theme and isHydrated are the store's |
| ThemeProvider.Provider.Hydrate | src/app/_hooks/useTheme.tsx:85-91 | the provided theme is the stored-or-system theme, and the store is hydrated |
| ThemeProvider.Provider.SetTheme | src/app/_hooks/useTheme.tsx:94-98 | the provided theme, the dark class and storage["theme"] change together |
| ThemeProvider.Provider.ToggleTheme | src/app/_hooks/useTheme.tsx:101-103 | the provided theme flips, and is persisted and mirrored; isHydrated is unchanged |
| ThemeProvider.UseTheme | src/app/_hooks/useTheme.tsx:121-128 | outside a provider it fails with "useTheme must be used within a ThemeProvider"; inside, it returns the provider's value |
| Onboarding.Without | src/hooks/useOnboarding.ts:26-28 | unsubscribing never lengthens the list |
| Onboarding.WithoutMembers | src/hooks/useOnboarding.ts:26-28 | after unsubscribing cb, exactly the entries other than cb remain |
| Onboarding.WithoutAppend | src/hooks/useOnboarding.ts:26-28 | removal distributes over concatenation, so the remaining listeners keep their order |
| Onboarding.WithoutAbsent | src/hooks/useOnboarding.ts:26-28 | unsubscribing an absent listener changes nothing |
| Onboarding.SubscribeThenUnsubscribe | src/hooks/useOnboarding.ts:24-28 | subscribing a new listener and unsubscribing it restores the list |
| Onboarding.GetServerSnapshot | src/hooks/useOnboarding.ts:35-37 | on the server the tour is never completed |
| Onboarding.CompletedStore.constructor | src/hooks/useOnboarding.ts:22 | there are no listeners at first |
| Onboarding.CompletedStore.Subscribe | src/hooks/useOnboarding.ts:24-25 | cb is appended at the end |
| Onboarding.CompletedStore.Unsubscribe | src/hooks/useOnboarding.ts:26-28 | every entry equal to cb is removed |
| Onboarding.CompletedStore.GetCompletedSnapshot | src/hooks/useOnboarding.ts:31-33 | completed iff storage["onboarding-completed"] is exactly "true" |
| Onboarding.CompletedStore.NotifyCompletedChange | src/hooks/useOnboarding.ts:39-41 | every listener is called exactly once, in list order |
| Onboarding.OnboardingHook.constructor | src/hooks/useOnboarding.ts:59-61 | the tour starts not active, with no driver |
| Onboarding.OnboardingHook.Hydrate | src/hooks/useOnboarding.ts:115-119 | isHydrated becomes true on the client |
| Onboarding.OnboardingHook.Value | src/hooks/useOnboarding.ts:121-126 | after hydration isCompleted is the storage flag; before it, the server snapshot (not completed); isActive and isHydrated are the hook's own |
| Onboarding.OnboardingHook.HandleComplete | src/hooks/useOnboarding.ts:64-68 | the flag is written as "true", every listener is notified once in order, and the tour is not active |
| Onboarding.OnboardingHook.OnDestroyed | src/hooks/useOnboarding.ts:83-85 | the driver ending completes the tour |
| Onboarding.OnboardingHook.StartTour | src/hooks/useOnboarding.ts:92-103 | the previous driver, if any, is destroyed before the new one is installed; exactly one driver is live and the tour is active |
| Onboarding.OnboardingHook.Unmount | src/hooks/useOnboarding.ts:106-112 | the live driver, if any, is destroyed, leaving none live; the driver reference still names it, and nothing else changes |
| OnboardingProvider.CompletedNeverAutoStarts | src/components/OnboardingProvider.tsx:48 | a completed tour never satisfies the auto-start condition |
| OnboardingProvider.UseOnboardingContext | src/components/OnboardingProvider.tsx:22-28 | outside a provider it fails with "useOnboardingContext must be used within an OnboardingProvider"; inside, it returns the value |
| OnboardingProvider.Provider.constructor | src/components/OnboardingProvider.tsx:40-46 | no start is scheduled before the first effect |
| OnboardingProvider.Provider.Inputs | src/components/OnboardingProvider.tsx:46 | the effect's inputs are the hook's hydrated and active flags, and completed iff hydrated and the storage flag is set |
| OnboardingProvider.Provider.ContextValue | src/components/OnboardingProvider.tsx:42-57 | the context passes the hook's value through unchanged |
| OnboardingProvider.Provider.AfterRender | src/components/OnboardingProvider.tsx:47-55 | when the inputs change, the old timer is cleared and a start is scheduled 500 ms later iff hydrated, not completed and not active; unchanged inputs keep the timer |
| OnboardingProvider.Provider.FireTimer | src/components/OnboardingProvider.tsx:50-52 | the timer fires: the previous driver, if any, is destroyed, a new driver is installed and is the only live one, and the tour is active; isHydrated and the effect's last inputs are kept |
| OnboardingProvider.Provider.Unmount | src/components/OnboardingProvider.tsx:53 | the pending start is cleared and the live driver, if any, is destroyed, leaving none live; the driver reference, the started drivers, isActive, isHydrated and the last inputs are kept |

## Left out

- Rendering and styling are not modelled:
  - JSX, Tailwind variants, icons, skeletons, menus and the other presentational components;
  - the centre labels and `ChartTooltip.tsx`.
- Foreign libraries are not modelled:
  - recharts geometry and its event plumbing; a segment click is modelled by the index recharts passes;
  - driver.js, which is an opaque handle with `destroy`. Destroying a driver is not assumed to call `onDestroyed`; `OnDestroyed` is a separate event;
  - Radix, `next/image` and portals.
- I/O is not modelled: the fetch of the portfolio, the mock API route and console output.
- Browser inputs become arguments:
  - `Date.now()`, `window.innerWidth`, `matchMedia` and the presence of `window` and `document`;
  - timers fire when a `Fire`/`FireTimer` method is called, at the time it is given. The model does not check that time against the due time.
- Floating point is not modelled:
  - `toFixed` rounding of binary floats, such as 12.345 shown as "12.3%";
  - the comparator `b - a` on ratios that are not exact;
  - all ratios are exact integers in hundredths or tenths;
  - negative zero: `formatCurrency(-0)` gives "-0" in JavaScript, but `Num` has only one zero, so the model gives "0". The same holds for `formatGainAmount(-0)` and `formatGainAmountWithCurrency(-0)`, which give "-0" and "¥-0": `normalizeNumber` keeps -0, and the zero branch of `formatWithSign` applies the formatter without `Math.abs`. The model gives "0" and "¥0". `formatGainRatio` and `formatHoldingRatio` are unaffected, since `toFixed` prints -0 without a sign.
  - mouse coordinates: `clientX` and `clientY` are fractional in a DOM mouse event, but integers in `ChartTooltip.TooltipAnchor`.
- Locale rules of `toLocaleString('ja-JP')` beyond comma grouping of integers are not modelled: fractional amounts, other locales, and `toFixed`'s exponent form from 1e21 up.
- Formatters.FormatCurrencyThousandsExample: stands in for the grouping examples 115500 → "115,500" and 1234567890 → "1,234,567,890", which are not spelled out as concrete cases. `Formatters.FormatCurrencyGrouping` covers them for every n.
- Formatters.FormatGainAmountPositiveExample: uses 5242 instead of 15500 and 1234567, for the same reason.
- The copy `[...assets]` before sorting is implicit. Dafny sequences are values, so the input cannot change, and no separate array copy is modelled.
- The sort is the stable insertion sort. The sorting algorithm of a real engine is not modelled, only its result, which stability makes unique (`AssetUtils.SortIsTheStableOrder`).
- `useTheme.tsx` repeats the rules of `useTheme.ts`. `ThemeProvider.Provider` holds a `ThemeHook.ThemeStore` rather than a second copy of them.
- `useOnboarding` is called with an `{ isDarkMode }` argument that it does not declare. The argument has no effect and is not modelled.
- The inline script in `layout.tsx` that sets the class before hydration is not modelled. It treats an invalid stored value slightly differently from `getStoredTheme`.
- A change of the `throttleMs` argument after mounting, which re-runs the resize effect, is not modelled. The interval is fixed when the hook is created.
- `useTouchDevice`, `useChartColors` and the static colour constants are not modelled; the palette is a parameter of `PortfolioChart.ChartData`.
- Where the tests and the code disagree, the model follows the code:
  - `formatters.test.ts` (lines 86, 92 and 98) expects colour classes such as `text-green-500`. The code returns `text-green-600 dark:text-green-300` and the like, and the model uses the code's strings.
  - A comment in `useBreakpoint.test.ts` (lines 37–38) says the first breakpoint is always desktop. The code, followed here, classifies the window width whenever a window exists.
