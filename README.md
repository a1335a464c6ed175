# SAMPN & Associates website: a Dafny model of its logic

The site of a chartered-accountancy firm carries several pieces of logic with behaviour that can be stated. This project models them in Dafny and proves properties about them:

- a keyword search over the site's pages, calculators, services, knowledge items and blog posts, with a synonym table, tiered scoring, per-type boosts and a stable ranking;
- the tax and interest calculators: income tax under both regimes, corporate tax, capital gains, HRA exemption, GST, TDS, SIP, simple and compound interest with EMI, FD/RD, and the basic calculator;
- the form-security library (sanitizer, email and phone recognisers, sliding-window rate limiter, contact-form validator);
- the submit handlers of the contact, query and careers pages;
- the JSON-LD builders, the sitemap, the breadcrumb trail and the sectors page's service lookups;
- the small state machines of the search box, the search results page, the hero banner and the testimonial carousel.

Money is modelled over `real`. A page that reads an input with `parseFloat(v) || d` takes the input as an `Option<real>`, where `None` is text that does not parse. A coercion function in `Numbers` turns it into a number. Pure code is modelled as datatypes, functions and lemmas. The code that changes state is modelled as classes and methods proved against specification functions: the rate limiter, the basic calculator, the page forms, the search box and the carousels. So are the loops: the slab walk, the surcharge search, the sanitizer's pattern loop, the RD month loop, the chart series, the sort and the count reduce.

Modules, one per source file (plus shared helpers):

- `Wrappers`, `Strings`, `Numbers`: Option, JavaScript's `trim`/`split`/`replace`/`toLowerCase`, and the `parseFloat(v) || d` coercion.
- `Content`: the shapes of the site's static data, passed as parameters.
- `SearchData`, `SearchEngine`: `lib/searchData.ts` and `lib/searchEngine.ts`.
- `Security`: `lib/security.ts`.
- `IncomeTax`, `CorporateTax`, `CapitalGains`, `HraExemption`, `GstCalculator`, `Tds`, `Sip`, `SimpleInterest`, `FdRd`, `BasicCalculator`: the calculator pages.
- `JsonLd`, `Sitemap`, `Breadcrumbs`, `Sectors`: the serialisers and lookups.
- `FormRules`: the ordered field checks the three form pages run, as data.
- `ContactPage`, `QueryPage`, `CareersPage`: those pages.
- `SearchPage`, `SearchBar`: the search results page and the header's search box.
- `Slides`, `HeroBanner`, `TestimonialCarousel`: the carousels.

## Model

| member | source | states |
|---|---|---|
| Numbers.OrDefault | app/knowledge/calculators/sip/page.tsx:14-16 | the JavaScript "or" default: the parsed number, unless it is missing (NaN) or 0, in which case it is `d` |
| IncomeTax.CalcTax | app/knowledge/calculators/income-tax/page.tsx:26-34 | the slab loop returns `SlabTax`: each slab taxes `min(income, max) - min` at its rate, and the walk stops at the first slab whose lower edge the income does not pass |
| IncomeTax.TablesSane | app/knowledge/calculators/income-tax/page.tsx:10-24 | both slab tables are contiguous (each slab starts where the previous one ends) with rates between 0 and 30 |
| IncomeTax.SlabTaxNonNegative | app/knowledge/calculators/income-tax/page.tsx:26-34 | with rates between 0 and 100 the slab tax is never negative |
| IncomeTax.SlabTaxMonotone | app/knowledge/calculators/income-tax/page.tsx:26-34 | more income never gives less slab tax |
| IncomeTax.SlabTaxAtMostTop | app/knowledge/calculators/income-tax/page.tsx:26-34 | for contiguous slabs taxed at no more than 30%, the tax is 0 up to the first slab's lower edge and at most 30% of the income above it |
| IncomeTax.TaxAtMostThirtyPercent | app/knowledge/calculators/income-tax/page.tsx:10-34 | under either table, 0 <= tax <= 30% of a non-negative income |
| IncomeTax.ExemptionLimits | app/knowledge/calculators/income-tax/page.tsx:10-34 | no tax up to 250000 (old regime) or 400000 (new regime) |
| IncomeTax.SlabFixedPoints | app/knowledge/calculators/income-tax/page.tsx:10-24 | old regime: 12500 at 500000 and 112500 at 1000000; new regime: 60000 at 1200000 |
| IncomeTax.Surcharge | app/knowledge/calculators/income-tax/page.tsx:36-42 | 0 up to 5,000,000 inclusive, 10% of the tax above it, 15% above 10,000,000, 25% above 20,000,000 (both top branches give 25%) |
| IncomeTax.OldRegimeDeductions | app/knowledge/calculators/income-tax/page.tsx:52-61 | old-regime deductions cap 80C at 150000 and 80D at 100000, a standard deduction left empty or typed as 0 counts as 75000, and taxable income is `max(gross - deductions, 0)` |
| IncomeTax.ZeroStandardDeduction | app/knowledge/calculators/income-tax/page.tsx:57 | a standard deduction typed as 0 gives the same deductions as 75000 and as an empty field |
| IncomeTax.NewRegimeIgnoresDeductions | app/knowledge/calculators/income-tax/page.tsx:69-76 | the new-regime column depends only on gross income; taxable income is `max(gross - 75000, 0)` |
| IncomeTax.CessAndRebate | app/knowledge/calculators/income-tax/page.tsx:62-76 | cess is 4% of tax plus surcharge, the total is 104% of it, and the payable amount is 0 up to the rebate limit and the whole total above it |
| IncomeTax.NoMarginalRelief | app/knowledge/calculators/income-tax/page.tsx:75-76 | new-regime taxable income of 1200000 pays 0, and 1200001 pays more than 60000 |
| IncomeTax.Compare | app/knowledge/calculators/income-tax/page.tsx:78-81 | the old regime is reported better exactly when its payable tax is not higher (so on a tie); savings are new minus old payable; a result shows iff income > 0 |
| CorporateTax.Rates | app/knowledge/calculators/corporate-tax/page.tsx:18-25 | base rates: normal 30, section 115BAA 22, section 115BAB 15, MSME 25 |
| CorporateTax.SurchargeRate | app/knowledge/calculators/corporate-tax/page.tsx:28-31 | the threshold loop returns the rate of the last threshold strictly below taxable income, or 0 |
| CorporateTax.SurchargeLadders | app/knowledge/calculators/corporate-tax/page.tsx:18-31 | normal and MSME: 0 up to 1e7, 7% above it, 12% above 1e8; sections 115BAA and 115BAB: 10% for any positive taxable income |
| CorporateTax.CalculateParts | app/knowledge/calculators/corporate-tax/page.tsx:14-38 | taxable = `max(revenue - deductions, 0)`; base tax at the type's rate; cess = 4% of base plus surcharge; net + total tax = taxable; a result shows iff revenue > 0, even with nothing taxable; with taxable 0 the effective rate and the tax are 0 |
| CorporateTax.EffectiveRates | app/knowledge/calculators/corporate-tax/page.tsx:35 | for positive taxable income the effective rate is exactly 25.168% under section 115BAA and 17.16% under section 115BAB |
| CorporateTax.NetIncomeNonNegative | app/knowledge/calculators/corporate-tax/page.tsx:26-36 | under every company type the total tax never exceeds taxable income |
| CapitalGains.LevyTable | app/knowledge/calculators/capital-gains/page.tsx:25-35 | equity 12.5% long-term (with a 125000 exemption) and 20% short-term; debt 20%/30%; property 12.5%/30%; only long-term equity has an exemption; every rate is between 0 and 30 |
| CapitalGains.CalculateParts | app/knowledge/calculators/capital-gains/page.tsx:15-43 | gain = sale - purchase; long-term iff months >= 12 (equity), 36 (debt) or 24 (property); taxable gain = `max(gain - exemption, 0)`; total tax = 104% of the tax; net = gain - total tax; a result shows iff both prices are positive; the shown exemption is `min(exemption, gain)` |
| CapitalGains.WithinExemptionUntaxed | app/knowledge/calculators/capital-gains/page.tsx:37-41 | a loss, or a gain within the exemption, pays no tax and keeps the whole gain |
| CapitalGains.NetGainNonNegative | app/knowledge/calculators/capital-gains/page.tsx:37-41 | for a non-negative gain, 0 <= total tax <= gain, so the net gain is non-negative |
| HraExemption.ExemptIsLeastOption | app/knowledge/calculators/hra-exemption/page.tsx:15-26 | the options are the HRA, 50% (metro) or 40% of basic, and rent above 10% of basic (floored at 0); the exemption is one of them and no larger than any; taxable = `max(HRA - exempt, 0)`; a result shows iff basic > 0 |
| HraExemption.HraSplits | app/knowledge/calculators/hra-exemption/page.tsx:20-24 | for non-negative basic and HRA, exempt + taxable = HRA received, and rent up to 10% of basic exempts nothing |
| HraExemption.MetroAtLeastNonMetro | app/knowledge/calculators/hra-exemption/page.tsx:18-23 | for equal inputs a metro exemption is never below the non-metro one |
| HraExemption.PlaceholderExample | app/knowledge/calculators/hra-exemption/page.tsx:45-57 | the placeholder inputs 600000 / 240000 / 180000 in a metro give exempt 120000 and taxable 120000 |
| GstCalculator.Compute | app/knowledge/calculators/gst-calculator/page.tsx:19-27 | base + GST = total in both modes; exclusive keeps the amount as base and adds rate% of it; inclusive keeps the amount as total, with base × (100 + rate) = amount × 100 |
| GstCalculator.RoundTrip | app/knowledge/calculators/gst-calculator/page.tsx:19-27 | the exclusive total, fed back in inclusive mode at the same rate, gives back the original base and the same GST |
| GstCalculator.Breakdown | app/knowledge/calculators/gst-calculator/page.tsx:86-91 | between states a single IGST line for the whole GST at the full rate; within a state equal CGST and SGST lines that add up to the GST and the rate |
| GstCalculator.Calculate | app/knowledge/calculators/gst-calculator/page.tsx:15-30 | a result shows iff the amount is positive, and base + GST = total |
| Tds.TableShape | app/knowledge/calculators/tds/page.tsx:9-27 | 13 rows; the default row is section 194A at 10%; every parsed rate is between 0 and 30 |
| Tds.Calculate | app/knowledge/calculators/tds/page.tsx:29-35 | TDS + net payable = amount; a result shows iff amount > 0 and rate > 0 |
| Tds.SalaryNeverShown | app/knowledge/calculators/tds/page.tsx:10 | section 192's "As per slab" coerces to rate 0, so it never shows a result |
| Tds.DeductionBounded | app/knowledge/calculators/tds/page.tsx:29-32 | TDS = amount × rate / 100, and for a non-negative amount 0 <= TDS <= amount and net >= 0 |
| Tds.ContractorExample | app/knowledge/calculators/tds/page.tsx:13 | 500000 under 194C at 1% deducts 5000 and pays 495000 |
| Sip.FutureValueIsAnnuityDue | app/knowledge/calculators/sip/page.tsx:20 | at a positive rate the closed form equals the sum of every instalment grown to the end of the tenure, an instalment paid at the start of each month |
| Sip.ReturnsNonNegative | app/knowledge/calculators/sip/page.tsx:19-21 | with a non-negative instalment and rate the future value is at least the amount invested |
| Sip.CalculateParts | app/knowledge/calculators/sip/page.tsx:14-32 | twelve instalments a year at a twelfth of the annual rate; the invested amount is instalment times months; returns are future value minus invested and are never negative at a non-negative instalment and rate; a result shows exactly for a positive instalment and tenure |
| Sip.PlaceholderExample | app/knowledge/calculators/sip/page.tsx:14-19 | 5000 a month for 10 years puts in 600000, whatever the rate |
| Sip.YearlySeries | app/knowledge/calculators/sip/page.tsx:24-30 | the chart has one point per whole year, each the future value after that many years' instalments, so the last point is the headline future value |
| SimpleInterest.OneYearSame | app/knowledge/calculators/simple-interest/page.tsx:18-20 | over one year compound and simple interest are equal |
| SimpleInterest.CompoundAtLeastSimple | app/knowledge/calculators/simple-interest/page.tsx:18-20 | over whole years, with a non-negative principal and rate, compound interest is at least simple interest |
| SimpleInterest.EmiRepaysLoan | app/knowledge/calculators/simple-interest/page.tsx:22-24 | the instalment amortises the loan: the months' payments, each grown to the end of the loan, equal the principal grown to the end |
| SimpleInterest.EmiCoversPrincipal | app/knowledge/calculators/simple-interest/page.tsx:22-24 | with a positive rate and term the total paid, instalment times months, is at least the principal, so the total interest shown is never negative |
| SimpleInterest.Calculate | app/knowledge/calculators/simple-interest/page.tsx:14-32 | simple and compound interest of the parsed inputs, totals that add the interest to the principal, a loan of 12 months a year at a twelfth of the rate whose instalment is 0 unless both are positive, and a result shown exactly for a positive principal and period |
| SimpleInterest.YearlySeries | app/knowledge/calculators/simple-interest/page.tsx:27-30 | the chart has one point per whole year, the principal plus that many years' compound interest |
| FdRd.RdTotal | app/knowledge/calculators/fd-rd/page.tsx:38-43 | the month-by-month accumulation loop yields the recurring-deposit maturity |
| FdRd.RdClosedForm | app/knowledge/calculators/fd-rd/page.tsx:38-43 | the recurring-deposit maturity is each month's deposit grown for the months it stays in, a geometric sum |
| FdRd.RdAtLeastDeposits | app/knowledge/calculators/fd-rd/page.tsx:38-44 | at a non-negative rate the recurring-deposit maturity is at least what was deposited, so its interest is never negative |
| FdRd.QuarterlyAgreement | app/knowledge/calculators/fd-rd/page.tsx:27-41 | growing by the monthly factor for three months per quarter is the fixed deposit's quarterly compounding: both formulas use the same rate |
| FdRd.FdChart | app/knowledge/calculators/fd-rd/page.tsx:29-32 | the fixed-deposit chart has one point per whole year, the value after that many quarters |
| FdRd.RdChart | app/knowledge/calculators/fd-rd/page.tsx:45-52 | the recurring-deposit chart has one point per whole year, the maturity of a deposit of that many months |
| FdRd.Grow | app/knowledge/calculators/fd-rd/page.tsx:25-52 | fixed deposit: quarterly compounding for four quarters a year, interest over the principal; recurring deposit: the monthly sum, interest over every instalment; one chart point per whole year, the value after that year, the last one the maturity |
| FdRd.EffectiveReturn | app/knowledge/calculators/fd-rd/page.tsx:58 | no effective return without a positive principal and a tenure |
| FdRd.Calculate | app/knowledge/calculators/fd-rd/page.tsx:16-60 | fixed deposit: quarterly compounding and interest over the principal; recurring deposit: the monthly sum and interest over the total deposited; the last chart point is the maturity; tax is the bracket's share of the interest, net interest plus tax is the interest, no tax at the 0% bracket; no effective return without a principal and tenure; a result shows exactly for positive principal, tenure and rate |
| BasicCalculator.StripOperators | app/knowledge/calculators/basic/page.tsx:55-58 | the stripped expression is a prefix of the expression that does not end with an operator, and everything removed was an operator |
| BasicCalculator.StripTrailingOperators | app/knowledge/calculators/basic/page.tsx:55-58 | the strip loop yields exactly that prefix |
| BasicCalculator.KeepEvalChars | app/knowledge/calculators/basic/page.tsx:62 | the result holds only digits, operators, '.', '%' and parentheses, keeps every such character of the input and leaves an input made only of them unchanged |
| BasicCalculator.KeepEvalCharsAppend | app/knowledge/calculators/basic/page.tsx:62 | the global replace works character by character: the kept text of two pieces joined is the two kept texts joined, so every allowed character is kept once per occurrence and in order |
| BasicCalculator.NoPercentUnchanged | app/knowledge/calculators/basic/page.tsx:65 | an expression without '%' is not rewritten |
| BasicCalculator.PercentExamples | app/knowledge/calculators/basic/page.tsx:65 | '50%' is rewritten '(50/100)' and '2*1.5%' is rewritten '2*(1.5/100)' |
| BasicCalculator.PercentMatchEnd | app/knowledge/calculators/basic/page.tsx:65 | a match starts at a digit and ends just past a '%' that follows a digit, holds no other '%', and a digit directly followed by '%' always starts one |
| BasicCalculator.RewriteLeavesNoMatch | app/knowledge/calculators/basic/page.tsx:65 | the global replace rewrites every match: the result holds no digit directly followed by '%' |
| BasicCalculator.NoMatchUnchanged | app/knowledge/calculators/basic/page.tsx:65 | text in which the pattern matches nowhere is not rewritten |
| BasicCalculator.RewritePercentIdempotent | app/knowledge/calculators/basic/page.tsx:65 | rewriting the percentages of an already rewritten expression changes nothing |
| BasicCalculator.PushHistory | app/knowledge/calculators/basic/page.tsx:74 | the new entry goes first, the older entries follow in order, and at most ten are kept |
| BasicCalculator.Calculator.constructor | app/knowledge/calculators/basic/page.tsx:8-11 | the calculator starts with display '0', an empty expression, no history and no result shown |
| BasicCalculator.Calculator.Clear | app/knowledge/calculators/basic/page.tsx:84-88 | back to '0' with an empty expression; the history is kept |
| BasicCalculator.Calculator.AppendToDisplay | app/knowledge/calculators/basic/page.tsx:13-28 | after 'Error', or a digit or '.' right after a result, the key starts afresh; a '0' display is replaced by any key but '.'; otherwise the key is appended to display and expression; the expression then never ends with an operator |
| BasicCalculator.Calculator.AppendOperator | app/knowledge/calculators/basic/page.tsx:30-49 | after 'Error' the expression restarts from '0'; a trailing operator is replaced, never doubled; the expression then ends with exactly one operator |
| BasicCalculator.Calculator.Calculate | app/knowledge/calculators/basic/page.tsx:51-82 | nothing happens on 'Error', an empty expression or one that stripping empties; an evaluation failure shows 'Error' with an empty expression; a result replaces display and expression, marks a result shown, and goes first into the history of at most ten |
| BasicCalculator.Calculator.Backspace | app/knowledge/calculators/basic/page.tsx:90-99 | a display of at most one character or 'Error' clears; otherwise the display loses its last non-blank character and the expression its last character, each falling back to '0'; the display is never empty |
| JsonLd.SanitizeJsonLd | lib/jsonld.ts:3-5 | the output holds no '<' and is five characters longer per '<' in the input |
| JsonLd.SanitizeAppend | lib/jsonld.ts:3-5 | the rewriting works character by character: the text of two pieces is the two rewritten pieces, in order |
| JsonLd.SanitizeChar | lib/jsonld.ts:3-5 | a '<' becomes the six characters `\u003c` and every other character is kept |
| JsonLd.SanitizeNoLt | lib/jsonld.ts:3-5 | text without '<' passes unchanged |
| JsonLd.BuildJsonLd | lib/jsonld.ts:7-9 | the serialised, sanitised data holds no '<' and is at least as long as the plain serialisation |
| JsonLd.First | lib/jsonld.ts:19-20 | the first element, absent exactly for an empty list |
| JsonLd.PostalOf | lib/jsonld.ts:22-28 | a postal address carries the office's city, state and country and joins its two address lines |
| JsonLd.OrganizationSchema | lib/jsonld.ts:11-30 | name, url and description from the site, the logo under the site url, the first phone and email, the social links, and one postal address per configured office in order |
| JsonLd.FindAddress | lib/jsonld.ts:33 | the index of the first office with the id, absent exactly when no office has it |
| JsonLd.LocalBusinessSchema | lib/jsonld.ts:32-57 | absent exactly when no office has the id; otherwise the first such office's city follows the site name, its postal address, phone and email, the site url, Monday to Saturday 10:00-18:00 |
| JsonLd.PersonSchema | lib/jsonld.ts:59-81 | name, title and email copied; the site url when the person has none; an image exactly when one is given, under the site url; one credential per qualification in order |
| JsonLd.FaqSchema | lib/jsonld.ts:100-110 | one question per FAQ in order, its name the question and its answer the answer |
| JsonLd.FaqRoundTrip | lib/jsonld.ts:100-110 | reading the questions back gives the FAQs back |
| JsonLd.BreadcrumbSchema | lib/jsonld.ts:133-144 | one list item per crumb in order, at position i + 1, copying name and url |
| JsonLd.BreadcrumbPositions | lib/jsonld.ts:137-139 | positions run 1 to n, strictly increasing |
| JsonLd.BreadcrumbRoundTrip | lib/jsonld.ts:133-144 | dropping the positions gives the crumbs back |
| Sitemap.StaticRouteCount | app/sitemap.ts:10-20 | there are 29 fixed routes, the first the home page |
| Sitemap.Priority | app/sitemap.ts:25 | 1 exactly for the home page; otherwise 0.8 exactly when the route splits on '/' into at most two parts, else 0.6 |
| Sitemap.PriorityByDepth | app/sitemap.ts:25 | a top-level route gets 0.8 and a nested one 0.6 |
| Sitemap.StaticEntries | app/sitemap.ts:10-26 | one entry per fixed route, its url the base followed by the route, at the route's priority |
| Sitemap.CategoryEntries | app/sitemap.ts:28-36 | a category's own page at 0.7 followed by one page per service at 0.6, in order |
| Sitemap.ServiceEntriesLength | app/sitemap.ts:28-36 | the service routes number one per category plus one per service |
| Sitemap.ServicePriorities | app/sitemap.ts:28-36 | every service route has priority 0.7 or 0.6 |
| Sitemap.BulletinEntries | app/sitemap.ts:38-43 | bulletins and then blog posts, each at 0.5 under /knowledge/bulletins/ |
| Sitemap.SitemapShape | app/sitemap.ts:45 | the sitemap is the 29 fixed routes, then the service routes, then the bulletin routes, so its length is their sum |
| Sitemap.SitemapPriorities | app/sitemap.ts:7-46 | every priority is between 0.5 and 1, and the first entry is the home page at 1 |
| Breadcrumbs.ItemUrl | components/Breadcrumbs.tsx:16 | the site url followed by the item's path when it has one, else the site url |
| Breadcrumbs.SchemaItems | components/Breadcrumbs.tsx:12-18 | Home at the site url, then one entry per item in order with its label and url |
| Breadcrumbs.PublishedList | components/Breadcrumbs.tsx:12-22 | the published list numbers Home 1 and item i as i + 2, and every url starts with the site url |
| Breadcrumbs.Rendered | components/Breadcrumbs.tsx:25-39 | a Home link to '/' first, then every item's label in order, a link exactly when it has a path and is not the last item |
| Breadcrumbs.LastNeverLink | components/Breadcrumbs.tsx:33 | the last item is never a link, whatever its path |
| Breadcrumbs.RenderedMatchesSchema | components/Breadcrumbs.tsx:12-39 | the rendered trail and the published list have the same length and the same labels in order |
| Sectors.FindService | app/about/sectors/page.tsx:15-19 | the position of the first service, category by category, whose slug matches; absent exactly when none does |
| Sectors.FindServiceTitle | app/about/sectors/page.tsx:14-21 | the title of the first matching service, or the slug itself when none matches |
| Sectors.FindServiceHref | app/about/sectors/page.tsx:23-30 | the page of the first matching service under its category, or '/services' when none matches |
| Sectors.LookupsAgree | app/about/sectors/page.tsx:14-30 | the link falls back to '/services' exactly when no service matches, and otherwise the title and the link belong to the same service |
| Sectors.UnknownSlug | app/about/sectors/page.tsx:20-29 | an unknown slug is shown as itself and links to '/services' |
| Security.EscapeAppend | lib/security.ts:23-28 | the five replacements work character by character: escaping two pieces joined is escaping each, joined |
| Security.EscapeIsPerChar | lib/security.ts:23-28 | the chain of five replace-all calls equals replacing each character by its entity, because '&' is escaped first and no later entity holds a character a later call replaces |
| Security.EscapeEachNoMarkup | lib/security.ts:23-28 | escaped text holds no '<', '>', '"' or apostrophe |
| Security.ApplyPatterns | lib/security.ts:30-32 | the pattern deletions never lengthen the text and bring in no character it did not hold |
| Security.Sanitize | lib/security.ts:22-35 | the escape, the loop over the nine patterns and the final trim compute `Sanitized` |
| Security.SanitizeOutput | lib/security.ts:22-35 | the output holds no '<', '>', '"' or apostrophe and neither starts nor ends with white space |
| Security.TagPatternsInert | lib/security.ts:10-16 | a pattern that starts with '<' never matches escaped text, so its deletion pass changes nothing |
| Security.SanitizeNotIdempotent | lib/security.ts:22-35 | sanitizing is not idempotent: '&' gives '&amp;', which gives '&amp;amp;' |
| Security.SinglePassLeavesPattern | lib/security.ts:30-32 | one deletion pass per pattern can leave a match: 'javajavascript:script:' comes out as 'javascript:' |
| Security.RoundFixedPoint | lib/security.ts:30-34 | a round of the nine passes and the trim that changes nothing leaves text with no match of any pattern and no white space at either end |
| Security.RoundShrinks | lib/security.ts:30-34 | a round that changes something makes the text strictly shorter and brings in no new character, so repeating rounds ends |
| Security.Settle | lib/security.ts:30-34 | repeating rounds of the nine passes and the trim until a round changes nothing leaves no match of any pattern anywhere, no white space at either end, and only characters of the input |
| Security.SettledIsClean | lib/security.ts:22-35 | the repaired sanitizer's output holds no match of any pattern, no '<', '>', '"' or apostrophe, and no white space at either end |
| Security.SettleIdempotent | lib/security.ts:30-34 | the repaired rounds return their own output unchanged |
| Security.FirstIndex | lib/security.ts:39 | the first position of the character, absent exactly when it does not occur |
| Security.LastIndex | lib/security.ts:39 | the last position of the character, absent exactly when it does not occur |
| Security.EmailValidIff | lib/security.ts:38-40 | the check accepts exactly the addresses the regular expression derives: a non-empty local part, '@', a non-empty domain, '.', and a top-level label of two or more letters |
| Security.EmailOneAt | lib/security.ts:39 | a valid address has exactly one '@', after a non-empty local part |
| Security.CleanPhone | lib/security.ts:45 | the cleaned number holds no white space, '-', '(', ')' or '.', and only characters of the input |
| Security.SeparatorsIgnored | lib/security.ts:45-46 | a separator typed anywhere in a non-empty number does not change the verdict |
| Security.PhoneLength | lib/security.ts:43-47 | a non-empty accepted number cleans to 10 or 13 characters ending in ten digits, the first of them 6 to 9 |
| Security.BlankPhone | lib/security.ts:44-46 | an empty phone is accepted but one made only of separators is not |
| Security.Recent | lib/security.ts:68 | the timestamps still inside the window, in order and no more of them |
| Security.RecentLater | lib/security.ts:68-87 | as the clock moves on, the window can only lose timestamps |
| Security.AdmitKeepsWindow | lib/security.ts:68-76 | after an accepted submission, every window ending then or later holds at most the maximum |
| Security.RateLimiter.constructor | lib/security.ts:56 | the store starts empty |
| Security.RateLimiter.CanSubmit | lib/security.ts:59-77 | accepts exactly when the form is not rate-limited; a refusal changes nothing; an acceptance stores the in-window timestamps and now, for that form only, keeping every form within the maximum |
| Security.ValidateContactForm | lib/security.ts:108-137 | at most six errors, one per failed check |
| Security.PushHas | lib/security.ts:117-134 | a failed check adds an error for its field and a passing one adds none, so a field has an error after the push exactly when it had one before or this check on it failed |
| Security.ContactErrorsHas | lib/security.ts:115-136 | after the six pushes, the name has an error exactly when one of its two checks failed, the email and the phone when their check failed, the message when one of its two checks failed, and no other field has one |
| Security.ContactErrorsOrder | lib/security.ts:115-136 | errors come in the order the fields are checked |
| Security.ContactFormChecks | lib/security.ts:117-134 | the empty-value tests are implied by the checks after them, so each check reads as its plain test, lengths in UTF-16 code units: a trimmed name under 2, a name over 100, an invalid email, a given invalid phone, a message over 5000, a trimmed message under 10 |
| Security.ContactFormFieldErrors | lib/security.ts:108-137 | a field has an error exactly when its check fails; an absent or empty phone never does and no subject is checked |
| Security.ContactFormNoErrors | lib/security.ts:108-137 | no error exactly when every check passes |
| Security.ContactFormInCheckOrder | lib/security.ts:108-137 | the errors are listed name, email, phone, message |
| Strings.Trim | lib/searchEngine.ts:5 | `trim` removes exactly the leading and trailing white space and keeps what lies between |
| Strings.TrimEmptyIff | lib/searchEngine.ts:5-6 | a string trims to nothing exactly when it is all white space |
| Strings.Utf16Length | lib/security.ts:51 | `.length` counts UTF-16 code units: one or two per character, zero exactly for the empty string |
| Strings.Utf16LengthAppend | lib/security.ts:51 | the length of two joined strings is the sum of their lengths |
| Strings.Utf16LengthBmp | lib/security.ts:51 | text with no character above U+FFFF has as many code units as characters |
| Strings.AstralLength | lib/security.ts:51 | a character above U+FFFF, such as an emoji, counts as two code units |
| Strings.ToLower | lib/searchEngine.ts:5-9 | lower-casing keeps the length and maps each character on its own, shifting only the upper-case ASCII letters |
| Strings.ToLowerIdempotent | lib/searchEngine.ts:5-9 | lower-casing text that is already lower-cased changes nothing |
| Strings.ReplaceFirstSpec | lib/searchEngine.ts:14-15 | replacing with a string pattern changes only the first occurrence, and nothing when there is none |
| Strings.SplitLength | lib/searchEngine.ts:32-33 | splitting on a character gives one more piece than the character's occurrences |
| SearchData.Tag | lib/searchData.ts:92-96 | every item of a knowledge section is tagged with that section, in order |
| SearchData.IndexLayout | lib/searchData.ts:17-115 | the index is the fixed pages, then one document per calculator, per service, per knowledge item and per blog post, in that order |
| SearchData.CalculatorEntry | lib/searchData.ts:69-76 | a calculator's document has id `calc_` and its slug, its page url, and keywords the lower-cased title followed by the title's words |
| SearchData.ServiceKeywords | lib/searchData.ts:86 | a service uses its own keywords when it has them, else its lower-cased title and category title |
| SearchData.KnowledgeEntrySections | lib/searchData.ts:91-104 | each knowledge item comes from one of the five sections, links under that section and has its lower-cased title and the section as keywords |
| SearchData.PageIds | lib/searchData.ts:18-67 | the fixed pages' ids are distinct and all start with `page_` |
| SearchData.IndexIdsUnique | lib/searchData.ts:17-115 | with distinct slugs within each source, no two documents share an id, because each kind has its own id prefix |
| SearchEngine.ExpandQuery | lib/searchEngine.ts:12-16 | the synonym loop builds the widened query list |
| SearchEngine.ExpandShape | lib/searchEngine.ts:12-16 | the list starts with the query and gains at most two entries per synonym pair, each the query with the first occurrence of one side replaced by the other |
| SearchEngine.QueryBonus | lib/searchEngine.ts:20-36 | one widened query earns its tier bonus and its token bonus |
| SearchEngine.TierPriority | lib/searchEngine.ts:20-29 | exactly one of 0, 10, 20, 30, 50, 100, the bonus of the first tier that holds: 100 for the exact title, else 50 for a title prefix, else 30 for inside the title, else 20 for a keyword, else 10 for the description, and 0 exactly when none holds; a better title match never earns less |
| SearchEngine.TokenBonusIff | lib/searchEngine.ts:32-36 | 15 exactly when the widened query has a space and every token is found in title, description or keywords; otherwise 0 |
| SearchEngine.GetSearchScore | lib/searchEngine.ts:3-47 | the scoring loop computes `Score` |
| SearchEngine.BlankQueryScoresZero | lib/searchEngine.ts:5-6 | a blank query scores 0 |
| SearchEngine.ScoreIgnoresCase | lib/searchEngine.ts:5-27 | the score does not depend on the case of the query, title, description or keywords |
| SearchEngine.ScoreZeroOrBoosted | lib/searchEngine.ts:39-46 | a document where nothing matched scores 0 whatever its type; otherwise the type boost is added once and the score is at least 10 |
| SearchEngine.TypeBoostOrder | lib/searchEngine.ts:41-44 | for the same text, a calculator scores at least a service, a service a knowledge item, a knowledge item a blog post, and blog posts and pages the same; a matching calculator scores 5 above a page |
| SearchEngine.Insert | lib/searchEngine.ts:58 | inserting into a ranked list keeps it ranked and adds exactly that element |
| SearchEngine.StableSort | lib/searchEngine.ts:58 | the sort is a permutation ordered by non-increasing score with ties in index order, as a stable sort must give |
| SearchEngine.RankingSpec | lib/searchEngine.ts:55-58 | the ranking holds exactly the documents of the index with a positive score, each once with its own score, by non-increasing score with ties in index order |
| SearchEngine.BlankQueryNoResults | lib/searchEngine.ts:50 | a blank query returns no results |
| SearchEngine.ResultsBound | lib/searchEngine.ts:49-61 | at most `maxResults` results, each a document of the index with a positive score |
| SearchEngine.ResultsPrefix | lib/searchEngine.ts:60 | raising `maxResults` only extends the result list |
| FormRules.FailsWhenMissing | app/contact/page.tsx:21-26 | a missing field, read as "", fails every test except a length limit and an optional phone |
| FormRules.Value | app/contact/page.tsx:38-42 | a field the form holds reads as its text, a missing one as "" |
| FormRules.ErrorKeys | app/contact/page.tsx:19-28 | the record has an entry for a field exactly when one of its rules fails |
| FormRules.ErrorReason | app/query/page.tsx:24-30 | a field's entry is the reason of the last of its rules that fails, since later assignments replace earlier ones |
| FormRules.OnlyRule | app/contact/page.tsx:21-24 | a field with a single rule has an entry exactly when that rule fails, with that rule's reason |
| FormRules.TwoRules | app/query/page.tsx:24-30 | a field with two rules has an entry when either fails, with the second rule's reason when it fails |
| FormRules.MinTrimmedReads | app/contact/page.tsx:21 | "missing or under n UTF-16 code units once trimmed" is simply "under n code units once trimmed" |
| FormRules.ValidEmailReads | app/contact/page.tsx:22 | "missing or invalid" is simply "invalid", as the empty address is invalid |
| FormRules.ErrorFields | app/contact/page.tsx:19-28 | only fields some rule is about can have an entry |
| FormRules.LibraryField | lib/security.ts:108-137 | the library check flags a field of the form exactly when its test on that field fails |
| FormRules.Clean | app/contact/page.tsx:37-43 | cleaning keeps the form's fields |
| FormRules.CleanValue | app/contact/page.tsx:36-43 | each field reads cleaned as its text passed through `sanitize`, a missing one as the sanitized ""; a cleaned field holds no markup character and no white space at either end |
| ContactPage.ContactErrorFields | app/contact/page.tsx:19-28 | only name, email, phone, subject and message can have an error |
| ContactPage.ContactNameCheck | app/contact/page.tsx:21 | the name is refused exactly when, once trimmed, it is under 2 UTF-16 code units long |
| ContactPage.ContactEmailCheck | app/contact/page.tsx:22 | the email is refused exactly when `isValidEmail` refuses it |
| ContactPage.ContactPhoneCheck | app/contact/page.tsx:23 | the phone is refused exactly when given and invalid |
| ContactPage.ContactSubjectCheck | app/contact/page.tsx:24 | the subject is refused exactly when, once trimmed, it is under 3 UTF-16 code units long |
| ContactPage.ContactMessageCheck | app/contact/page.tsx:25-26 | the message is refused when, once trimmed, it is under 10 UTF-16 code units or over 5000, and then too-long replaces too-short |
| ContactPage.EmojiMessageAccepted | app/contact/page.tsx:25 | a message of five emoji is ten code units long and passes the 10-character minimum |
| ContactPage.AgreesOnName | app/contact/page.tsx:21 | up to 100 UTF-16 code units the page and the library check agree on the name; the page has no 100-unit limit |
| ContactPage.NameDisagreement | app/contact/page.tsx:21 | a name over 100 UTF-16 code units, 2 of them left after trimming, passes the page but is flagged by the library, which caps names at 100 units |
| ContactPage.AgreesOnEmail | app/contact/page.tsx:22 | the page and the library check agree on the email |
| ContactPage.AgreesOnPhone | app/contact/page.tsx:23 | the page and the library check agree on the phone |
| ContactPage.AgreesOnMessage | app/contact/page.tsx:25-26 | the page and the library check agree on the message |
| ContactPage.ContactForm.constructor | app/contact/page.tsx:13-16 | nothing submitted, no errors, no rate-limit notice; the page's check is its rules |
| ContactPage.ContactForm.HandleSubmit | app/contact/page.tsx:30-54 | a bot changes nothing; a refused slot shows the rate-limit notice and stops; otherwise the slot is used up, the errors become those of the cleaned form, and the form counts as submitted, with one submit event, exactly when there are none |
| ContactPage.ContactForm.SendAnother | app/contact/page.tsx:116 | back to an empty form with no errors |
| QueryPage.QueryErrorFields | app/query/page.tsx:22-32 | only name, email, phone, category and message can have an error |
| QueryPage.QueryNameCheck | app/query/page.tsx:24-25 | the name is refused when, once trimmed, it is under 2 UTF-16 code units or over 100, and then too-long replaces too-short |
| QueryPage.QueryEmailCheck | app/query/page.tsx:26 | the email is refused exactly when `isValidEmail` refuses it |
| QueryPage.QueryPhoneCheck | app/query/page.tsx:27 | the phone is refused exactly when given and invalid |
| QueryPage.QueryCategoryCheck | app/query/page.tsx:28 | the category is refused exactly when none is chosen |
| QueryPage.QueryMessageCheck | app/query/page.tsx:29-30 | the query is refused when, once trimmed, it is under 10 UTF-16 code units or over 5000, and then too-long replaces too-short |
| QueryPage.QueryAgreesOnName | app/query/page.tsx:24-25 | the page and the library check agree on the name |
| QueryPage.QueryAgreesOnEmail | app/query/page.tsx:26 | the page and the library check agree on the email |
| QueryPage.QueryAgreesOnPhone | app/query/page.tsx:27 | the page and the library check agree on the phone |
| QueryPage.QueryAgreesOnMessage | app/query/page.tsx:29-30 | the page and the library check agree on the message |
| QueryPage.QueryForm.constructor | app/query/page.tsx:11-15 | nothing submitted or started, no errors, no events |
| QueryPage.QueryForm.HandleFocus | app/query/page.tsx:18-20 | the first focus starts the form and sends the one form-start event; later focuses send none |
| QueryPage.QueryForm.HandleSubmit | app/query/page.tsx:34-66 | a bot changes nothing; a refused slot shows the rate-limit notice and stops; otherwise the slot is used up, the errors become those of the cleaned form, and the form counts as submitted, with one submit event, exactly when there are none |
| QueryPage.QueryForm.SubmitAnother | app/query/page.tsx:90 | back to an empty form with no errors; the form stays started |
| CareersPage.CareersErrorFields | app/careers/page.tsx:33-36 | only name, email and phone can have an error |
| CareersPage.CareersNameCheck | app/careers/page.tsx:34 | the name is refused exactly when, once trimmed, it is under 2 UTF-16 code units long |
| CareersPage.CareersEmailCheck | app/careers/page.tsx:35 | the email is refused exactly when `isValidEmail` refuses it |
| CareersPage.CareersPhoneCheck | app/careers/page.tsx:36 | the phone is refused exactly when missing or invalid |
| CareersPage.MissingPhoneRefused | app/careers/page.tsx:36 | an application without a phone is always refused |
| CareersPage.Toggle | app/careers/page.tsx:81 | the pressed job ends up expanded exactly when it was not, and no other job is expanded |
| CareersPage.ToggleTwice | app/careers/page.tsx:81 | pressing the same Details button twice restores the previous state |
| CareersPage.CareersForm.constructor | app/careers/page.tsx:12-17 | no job selected or expanded, nothing submitted, no errors |
| CareersPage.CareersForm.ToggleDetails | app/careers/page.tsx:81-87 | the expanded job is toggled and nothing else changes |
| CareersPage.CareersForm.Apply | app/careers/page.tsx:84-100 | the job is selected, errors and rate-limit notice cleared, and its form shows unless a thank-you panel is up |
| CareersPage.CareersForm.Cancel | app/careers/page.tsx:144 | no job is selected, so the form is gone |
| CareersPage.CareersForm.HandleSubmit | app/careers/page.tsx:20-46 | a bot changes nothing; a refused slot shows the rate-limit notice; otherwise the slot is used up, the errors become those of the cleaned form, and with none the application is submitted, counted, and the job deselected; the form shows afterwards exactly when nothing was submitted |
| CareersPage.CareersForm.BrowseMore | app/careers/page.tsx:158 | leaves the thank-you panel; with no job selected no form shows |
| SearchPage.Filtered | app/search/page.tsx:44 | the "All" filter shows every result |
| SearchPage.OfTypeSpec | app/search/page.tsx:44-51 | filtering by a type keeps exactly the results of that type, as many as its count |
| SearchPage.OfTypeConcat | app/search/page.tsx:44 | filtering keeps the results' order |
| SearchPage.OfTypeIdempotent | app/search/page.tsx:44 | filtering twice by the same type changes nothing |
| SearchPage.CountsSum | app/search/page.tsx:47-51 | the per-type counts add up to the number of results |
| SearchPage.Keep | app/search/page.tsx:70-72 | a button is kept exactly when it is "All" or its count is positive |
| SearchPage.SearchResults.constructor | app/search/page.tsx:24-28 | the page opens on the address's query, loading, with no results and the "All" filter |
| SearchPage.SearchResults.Load | app/search/page.tsx:30-42 | a blank query gives no results; otherwise up to 50 results of the search engine, each from the index with a positive score; loading ends and the filter is kept |
| SearchPage.SearchResults.SetFilter | app/search/page.tsx:76 | only the filter changes |
| SearchPage.SearchResults.Counts | app/search/page.tsx:47-51 | "All" counts every result and each type counts its results |
| SearchPage.ButtonsShown | app/search/page.tsx:47-72 | a button is drawn exactly for "All" and each type with a result, and its badge is the length of the list it shows |
| SearchBar.CursorDown | components/SearchBar.tsx:84-86 | ArrowDown moves one result down, stopping at the last, and stays in range |
| SearchBar.CursorUp | components/SearchBar.tsx:87-89 | ArrowUp moves one up, stopping at -1 (nothing selected) |
| SearchBar.UpUndoesDown | components/SearchBar.tsx:84-89 | ArrowUp undoes ArrowDown except at the last result |
| SearchBar.DownFromNone | components/SearchBar.tsx:84-86 | from no selection, k presses of ArrowDown select result k - 1, or the last one |
| SearchBar.BlankIsTrimEmpty | components/SearchBar.tsx:33 | the blank test is exactly the search engine's trimmed-empty test |
| SearchBar.SearchBox.constructor | components/SearchBar.tsx:21-25 | empty text, no results, closed, nothing selected; the box searches the site index with its synonyms |
| SearchBar.SearchBox.SetQuery | components/SearchBar.tsx:33-37 | a blank query clears the results and closes the dropdown; otherwise only the text changes until the search settles |
| SearchBar.SearchBox.Settle | components/SearchBar.tsx:39-45 | the search completes with at most six results, the dropdown open and nothing selected |
| SearchBar.SearchBox.Focus | components/SearchBar.tsx:121 | focusing reopens the dropdown when there are results |
| SearchBar.SearchBox.ClickOutside | components/SearchBar.tsx:47-55 | a press outside closes the dropdown |
| SearchBar.SearchBox.Clear | components/SearchBar.tsx:129 | the clear button empties the text and results and closes the dropdown |
| SearchBar.SearchBox.Hover | components/SearchBar.tsx:163 | hovering a result selects it |
| SearchBar.SearchBox.Select | components/SearchBar.tsx:66-70 | choosing a result goes to its address, closes the dropdown and empties the text |
| SearchBar.SearchBox.SearchAll | components/SearchBar.tsx:72-78 | closes the dropdown; with a non-blank query goes to the search page for it and empties the text |
| SearchBar.SearchBox.KeyDown | components/SearchBar.tsx:81-99 | with the dropdown closed every key is ignored; the arrows move the cursor within the results; Enter goes to the selected result or else searches a non-blank query; Escape only closes |
| Slides.Next | components/HeroBanner.tsx:54 | the index after "next" is in range: one more, or back to 0 after the last |
| Slides.Prev | components/HeroBanner.tsx:59 | the index after "previous" is in range: one less, or the last from 0 |
| Slides.PrevAfterNext | components/HeroBanner.tsx:52-60 | "previous" undoes "next" |
| Slides.NextAfterPrev | components/HeroBanner.tsx:52-60 | "next" undoes "previous" |
| Slides.NextTimesMod | components/HeroBanner.tsx:67-71 | k autoplay ticks advance the index by k, round the slides |
| Slides.FullCircle | components/HeroBanner.tsx:67-71 | as many ticks as slides come back to the starting slide |
| HeroBanner.Banner.constructor | components/HeroBanner.tsx:47-49 | the banner starts on the first slide, moving forward |
| HeroBanner.Banner.Next | components/HeroBanner.tsx:52-55 | direction forward and the next slide, in range |
| HeroBanner.Banner.Prev | components/HeroBanner.tsx:57-60 | direction backward and the previous slide, in range |
| HeroBanner.Banner.GoTo | components/HeroBanner.tsx:62-65 | the chosen slide, forward exactly when it lies after the current one |
| HeroBanner.NextThenPrev | components/HeroBanner.tsx:52-60 | next then previous returns to the same slide, now moving backward |
| TestimonialCarousel.FiveTicks | components/TestimonialCarousel.tsx:7-25 | there are five testimonials and five autoplay ticks come back to the same one |
| TestimonialCarousel.Carousel.constructor | components/TestimonialCarousel.tsx:16 | the carousel starts on the first testimonial |
| TestimonialCarousel.Carousel.Shown | components/TestimonialCarousel.tsx:7-13 | the testimonial shown is always one of the five |
| TestimonialCarousel.Carousel.Next | components/TestimonialCarousel.tsx:19 | the next testimonial, wrapping after the last |
| TestimonialCarousel.Carousel.Prev | components/TestimonialCarousel.tsx:20 | the previous testimonial, wrapping before the first |
| TestimonialCarousel.Carousel.Dot | components/TestimonialCarousel.tsx:53-54 | a dot shows its testimonial |
| TestimonialCarousel.NextThenPrev | components/TestimonialCarousel.tsx:19-20 | next then previous shows the same testimonial |

## Left out

- Rendering: JSX, CSS, framer-motion variants, animation, reduced motion and the chart's SVG geometry (`components/CalculatorChart.tsx`). They carry no behaviour to state. The charts are modelled as their data series only.
- Time: the search box's 300 ms debounce becomes the `SearchBar.SearchBox.Settle` step. The form pages' 800 ms simulated delay and their `submitting` and `isLoading` flags are collapsed into the state after the handler finishes. The carousels' autoplay timers are modelled as repeated "next" (`Slides.NextTimes`, `TestimonialCarousel.FiveTicks`).
- Clock: `Date.now()` in the rate limiter is the parameter `now`.
- DOM: the honeypot test `isBot` reads the DOM, so it is a boolean parameter of each submit handler. `FormData` is a map from `Field` to text. A field absent from the map reads as "".
- Null form: the `formRef` null check is left out, because the handlers always run from a mounted form.
- Analytics: `gtag` events are counters on the page classes, e.g. `submitEvents` and `startEvents`.
- Navigation: `router.push` appends to the search box's `visited` list. `encodeURIComponent` is the parameter `encode`. `highlightMatch`, which builds a `RegExp` for display, is left out.
- Search index loading: the lazy `import` in `lib/searchEngine.ts` is not modelled. The index and the synonym table are parameters, and `SearchData` builds the index from content passed as parameters.
- Static content: the text of the site's content files is not part of this model. It is taken as parameters of the `Content` types. The same goes for the testimonials' quotes; only their number, five, is kept.
- Numbers: money is `real`, so IEEE rounding, `Math.round`, `toFixed` and `toLocaleString` formatting are not modelled. Calculator inputs that are years are whole numbers (`nat`), so fractional or negative years are not modelled.
- Foreign code: the basic calculator's evaluator `mexp.eval` and its number formatting are a parameter `eval`. `JSON.stringify` is a parameter of `JsonLd.BuildJsonLd`.
- FD/RD exponent: the RD's fractional exponent `(1 + rate/400)^(k/3)` is written as `c^k`, where `c` is a cube root of `1 + rate/400` given as a parameter.
- Letter case: `toLowerCase` is modelled for ASCII letters only.
- Text length: `.length` on form fields is counted in UTF-16 code units (`Strings.Utf16Length`). The basic calculator's display lengths and slices count characters instead. Its display only ever holds digits, ASCII signs and the operator symbols ×, ÷ and −, which are one code unit each, so the two counts coincide there.
- Schema builders: `serviceSchema` and `articleSchema` copy fields into objects and are not modelled. The constant `@context`/`@type` strings of the other builders are implicit in their datatype constructors.
- Sitemap: its `lastModified` (from `new Date()`) and `changeFrequency` fields are not modelled.
- Error texts: validation messages are `Reason` values. Only the library's `validateContactForm` keeps its texts, through `Security.ContactFormMessage`.
- GstCalculator.Compute: it requires the rate to be one of 5, 12, 18 or 28, the options of the page's rate selector. So do `GstCalculator.RoundTrip` and `GstCalculator.Calculate`; other rates cannot be chosen on the page.
- Tds.Calculate: it requires the selected section to be a row of the TDS table, because the select offers only those rows. So does `Tds.DeductionBounded`.
- FdRd.Calculate: it requires the tax bracket to be one the selector offers (0, 5, 10, 15, 20 or 30) and a monthly growth factor `c` that is a positive cube root of `1 + rate/400`.
- BasicCalculator.Calculator.AppendToDisplay: it requires a key the keypad offers (a digit, '.' or '%'). `BasicCalculator.Calculator.AppendOperator` likewise requires one of the four operator keys.
- HeroBanner.Banner.constructor: it requires at least one slide, because with none the page's `%` divides by zero.
- ContactPage.AgreesOnName: it requires a name of at most 100 UTF-16 code units. The contact page sets no upper limit on the name, while the library's `validateContactForm` rejects names over 100, so above that length the two disagree, and `ContactPage.NameDisagreement` shows it.

## Findings

| source | as written | input that shows it | evidently intended | confidence | as-written member | corrected member |
|---|---|---|---|---|---|---|
| lib/security.ts:30-32 | each dangerous pattern is deleted in one pass, so a deletion can join the text around it into a new match | `javajavascript:script:` becomes `javascript:` | the sanitized text holds no match of any of the patterns | not executed | Security.SinglePassLeavesPattern | Security.SettledIsClean |
