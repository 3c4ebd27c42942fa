# Portfolio site scripts, modelled in Dafny

This project models the two pieces of logic in a personal portfolio site's
client scripts that work without the page.

**The chat widget** (`PortfolioChatbot` in `chatbot/chatbot.js`):
- A keyword responder. It lower-cases the message and tries ten rules in a
  fixed order. Each rule fires when any of its trigger words occurs anywhere in
  the text, and the first rule that fires picks the reply. With no rule firing,
  the default pool answers.
- Replies are drawn at random from fixed pools, or are one of five fixed
  strings.
- The session keeps an append-only message list and an open/closed flag.
- Each non-blank message schedules one bot reply after a delay.
- A Konami-code listener keeps the last ten key codes.

**The page helpers in `js/main.js`**:
- the e-mail check and the contact form's validation order;
- the text of the message the form builds;
- the terminal typewriter;
- the header's scroll behaviour;
- the light/dark theme toggle;
- the mobile menu toggle.

Modules, one per piece of the source:

| file | module | models |
|---|---|---|
| `js_text.dfy` | `JsText` | JavaScript whitespace, `trim`, `toLowerCase`, `includes`, `substring` |
| `responder.dfy` | `Responder` | the rules, pools, `containsAny`, `getRandomResponse`, `generateResponse` |
| `responder_facts.dfy` | `ResponderFacts` | what the rule order implies |
| `chatbot.dfy` | `Chatbot` | the session class `PortfolioChatbot` |
| `konami.dfy` | `Konami` | the Konami-code key window |
| `contact_form.dfy` | `ContactForm` | `isValidEmail`, the submit handler's checks, `createMessageContent` |
| `typing_effect.dfy` | `TypingEffect` | `typeCommand` and its closure |
| `scroll_effects.dfy` | `ScrollEffects` | the header scroll listener |
| `theme.dfy` | `Theme` | `initThemeToggle`, `updateThemeIcon` |
| `mobile_menu.dfy` | `MobileMenu` | `initMobileMenu` |
| `options.dfy` | `Options` | a value that may be absent |

How the model stands in for what it cannot run:
- **Randomness.** `Math.random()` becomes a `real` parameter `roll` with
  `0 <= roll < 1`. The pick is `Floor(roll * |pool|)`, as in the source.
- **Timers.** A scheduled bot reply is an entry in the session's `pending`
  list. `DeliverReply` is its timer firing, in any order. A typewriter step
  returns the delay it would schedule itself with.
- **Clocks.** `new Date()` and `toLocaleString()` become parameters.
- **Reply texts.** The `responses` object and the five fixed replies are one
  value, `ReplyTexts`, held by the session. The reply logic is proved for any
  texts that have a non-empty pool for every name it asks for. `SiteTexts`
  holds the site's own wording, and the constructor installs it.

Behaviour of the code that a reader might not expect:
- **"hire" is a greeting.** One might expect "I'd like to hire you for a
  project" to be a projects question. It is a greeting, because "hire"
  contains "hi" and the greeting rule comes first. The "hire" triggers of the
  contact and availability rules therefore never decide a reply
  (`HireIsGreeting`, `HireForProjectIsGreeting`).
- **No tokenising.** Triggers are matched against the whole lower-cased string.
  The input is not split into words, so "which" is also a greeting.
- **When the welcome message is added.** It is added when the widget is
  constructed, not when it is first opened.

## Model

| member | source | states |
|---|---|---|
| `JsText.Trim` | chatbot/chatbot.js:102 | the trimmed text is empty or starts and ends with a non-whitespace character |
| `JsText.TrimEmptyIff` | chatbot/chatbot.js:102-103 | trimming leaves nothing exactly when the input is all whitespace, so only such input is rejected |
| `JsText.TrimDropsOnlyWhitespace` | chatbot/chatbot.js:102 | what trim drops is whitespace, from the two ends only, and what it keeps is the slice of the input in between |
| `JsText.ToLowerCase` | chatbot/chatbot.js:129 | same length, no upper-case ASCII letter left, each one replaced by its lower-case letter (code point + 32), other characters unchanged |
| `JsText.Substring` | js/main.js:93-96 | for indices within the string, the characters between `start` and `end`, in either order; never longer than the string |
| `JsText.IncludesIff` | chatbot/chatbot.js:177 | `text.includes(k)` holds exactly when `k` occurs at some index of `text` |
| `Responder.ContainsAny` | chatbot/chatbot.js:176-178 | holds exactly when the keyword at some index of the list is a substring of the text |
| `Responder.Classify` | chatbot/chatbot.js:131-173 | the greeting category is chosen exactly when the greeting rule fires, whatever else the text contains |
| `Responder.ContainsAnyIff` | chatbot/chatbot.js:176-178 | `containsAny` holds exactly when some keyword of the list is a substring of the text |
| `Responder.SiteTextsValid` | chatbot/chatbot.js:7-38 | the site's `responses` object has a non-empty pool for every name `generateResponse` asks for |
| `Responder.PickIndex` | chatbot/chatbot.js:182 | `Math.floor(Math.random() * n)` is always a valid index into a non-empty pool |
| `Responder.GetRandomResponse` | chatbot/chatbot.js:180-183 | the reply is an element of the named pool, or of the default pool when no pool has that name |
| `Responder.Reply` | chatbot/chatbot.js:132-173 | each category answers with a member of its own pool, or with its fixed string |
| `Responder.GenerateResponse` | chatbot/chatbot.js:128-174 | total for every message; the reply is one of the replies of the category that the lower-cased message is classified under |
| `ResponderFacts.FirstMatchIs` | chatbot/chatbot.js:131-170 | for any rule list whose categories follow their positions, rule i decides from index `from` on exactly when it fires and no rule between `from` and i does |
| `ResponderFacts.ClassifyIsRule` | chatbot/chatbot.js:131-170 | first match wins: rule i decides exactly when it fires and no earlier rule fires |
| `ResponderFacts.ClassifyIsDefault` | chatbot/chatbot.js:172-173 | the default category is used exactly when no rule fires |
| `ResponderFacts.UnmatchedGetsDefault` | chatbot/chatbot.js:172-173 | with no rule firing, the reply is a member of the default pool |
| `ResponderFacts.ContainsHiIsGreeting` | chatbot/chatbot.js:132-134 | any message containing "hi" is answered as a greeting |
| `ResponderFacts.HireIsGreeting` | chatbot/chatbot.js:132-162 | any message containing "hire" contains "hi" and is a greeting; the contact and availability "hire" triggers never decide |
| `ResponderFacts.WorkIsProjects` | chatbot/chatbot.js:132-162 | a message containing "work" is a greeting, an about question or a projects question, never an availability question |
| `ResponderFacts.AvailabilityIff` | chatbot/chatbot.js:160-162 | the availability reply comes exactly when "available" or "freelance" occurs and none of the seven earlier rules fires |
| `ResponderFacts.ContactNeedsOwnTrigger` | chatbot/chatbot.js:148-150 | a contact reply needs "contact", "email", "reach" or "get in touch" in the message |
| `ResponderFacts.WhichIsGreeting` | chatbot/chatbot.js:132 | "which" is classified as a greeting |
| `ResponderFacts.HireForProjectIsGreeting` | chatbot/chatbot.js:132-142 | "i'd like to hire you for a project" is a greeting, not a projects question |
| `ResponderFacts.HiGetsGreeting` | chatbot/chatbot.js:128-134 | "hi" and "Hello" are answered from the greetings pool, whatever its wording |
| `ResponderFacts.ResponseIgnoresCase` | chatbot/chatbot.js:129 | the reply depends only on the lower-cased message |
| `ResponderFacts.ReplyCovers` | chatbot/chatbot.js:180-183 | every reply of every pool is produced by some roll |
| `Responder.PickCovers` | chatbot/chatbot.js:182 | the roll i/n selects index i |
| `Chatbot.PortfolioChatbot.constructor` | chatbot/chatbot.js:4-46 | holds the site's texts, closed, no reply pending, exactly one bot message, drawn from the greetings pool |
| `Chatbot.PortfolioChatbot.AddWelcomeMessage` | chatbot/chatbot.js:96-99 | appends one bot message from the greetings pool |
| `Chatbot.PortfolioChatbot.ToggleChatbot` | chatbot/chatbot.js:81-89 | negates `isOpen`, leaves messages and pending replies alone |
| `Chatbot.PortfolioChatbot.CloseChatbot` | chatbot/chatbot.js:91-94 | `isOpen` is false whatever it was; messages and pending replies unchanged |
| `Chatbot.PortfolioChatbot.AddMessage` | chatbot/chatbot.js:116-126 | the message list grows by exactly the new message, at the end |
| `Chatbot.PortfolioChatbot.SendMessage` | chatbot/chatbot.js:101-108 | whitespace-only input changes nothing; otherwise exactly one user message holding the trimmed text is appended, earlier messages are kept, and one reply is scheduled |
| `Chatbot.PortfolioChatbot.DeliverReply` | chatbot/chatbot.js:110-113 | a fired timer appends exactly one bot message holding `generateResponse` of the scheduled text and removes only that schedule |
| `Konami.StepFiresIffCode` | chatbot/chatbot.js:252-267 | on a well-shaped window, a key press fires exactly when the last ten keys pressed spell the code |
| `Chatbot.GreetingConversation` | chatbot/chatbot.js:101-114 | from any session with nothing pending, a blank send adds nothing, and "hi" adds exactly the user's "hi" and then one greeting |
| `Konami.Step` | chatbot/chatbot.js:252-267 | one key press keeps the window at ten codes or fewer |
| `Konami.NoOverlappingCodes` | chatbot/chatbot.js:250 | for any code whose last key appears nowhere else in it, as the Konami code's final A does, two occurrences in a key history cannot start less than the code's length apart |
| `Konami.StepKeepsShape` | chatbot/chatbot.js:252-267 | a key press preserves the window's shape: the most recent keys, and the code completed just before them when fewer than ten |
| `Konami.ShortWindowNoCode` | chatbot/chatbot.js:252-267 | a window that grew by one and is still shorter than the code follows a code completed less than the code's length ago, so the newest keys do not spell the code |
| `Konami.RunShape` | chatbot/chatbot.js:249-267 | after any history, the window holds the most recent keys in order, at most ten |
| `Konami.FiresIffLastTenSpellCode` | chatbot/chatbot.js:249-267 | the effect fires on a key exactly when the last ten keys pressed spell the code; the window is a suffix of the history of at most ten keys |
| `Konami.KonamiListener.constructor` | chatbot/chatbot.js:249 | the listener starts with an empty key window |
| `Konami.KonamiListener.KeyDown` | chatbot/chatbot.js:252-267 | the array becomes the window of the new history; it is emptied exactly when the effect fires, which is exactly when the last ten keys spell the code |
| `ContactForm.IsValidEmail` | js/main.js:458-461 | an accepted address has at least five characters, holds an '@' and does not start with it (the full equivalence with the regex is `IsValidEmailMatchesRegex`) |
| `ContactForm.IndexOf` | js/main.js:459 | the first '@' of the address, or its length when there is none |
| `ContactForm.IsValidEmailMatchesRegex` | js/main.js:458-461 | "no whitespace, exactly one '@' with something before it, and a '.' after it with a character on each side" accepts exactly what `/^[^\s@]+@[^\s@]+\.[^\s@]+$/` matches |
| `ContactForm.SubmitContactForm` | js/main.js:164-193 | "Please fill in all fields" exactly when a field is empty; "Please enter a valid email address" exactly when all fields are filled and the regex rejects the address; the message is built only when both checks pass |
| `ContactForm.InquiryType` | js/main.js:173 | with no select element, the type is 'general' |
| `ContactForm.Capitalize` | js/main.js:201 | same length, first character upper-cased, the rest unchanged |
| `ContactForm.GeneralCapitalized` | js/main.js:173-201 | the default type reads "General" |
| `ContactForm.CreateMessageContent` | js/main.js:199-216 | the text holds the Type line with the capitalised type; the user's message sits unchanged just before the fixed signature |
| `TypingEffect.Next` | js/main.js:89-112 | the state stays valid; 2000 ms pause and delete mode at the full length; 500 ms pause and the next command (mod 4) at zero; otherwise 100 ms typing and 50 ms deleting |
| `TypingEffect.Run` | js/main.js:85-112 | any number of steps from a valid state stays valid: command index in [0, 4), character index within the command |
| `TypingEffect.TypingPhase` | js/main.js:96-104 | typing from character j reaches the full command, in delete mode, after the remaining characters, waiting 100 ms each and then 2000 ms |
| `TypingEffect.DeletingPhase` | js/main.js:92-109 | deleting from character j empties the line after j steps, waiting 50 ms each and then 500 ms, and starts the next command |
| `TypingEffect.CommandCycle` | js/main.js:85-112 | a command of n characters takes 2n steps and returns to character 0 of the next command |
| `TypingEffect.SecondCommandStartsAt` | js/main.js:85-115 | with the 2000 ms start delay, "npm start" is typed and deleted and the second command starts 5700 ms after the effect starts |
| `TypingEffect.Typewriter.constructor` | js/main.js:85-87 | the closure starts at command 0, character 0, typing |
| `TypingEffect.Typewriter.TypeCommand` | js/main.js:89-112 | one step equals `Next`; afterwards the element shows exactly the first `charIndex` characters of the current command |
| `ScrollEffects.LookAfter` | js/main.js:127-138 | `scrolled` exactly when the position is past 100; hidden exactly when it moved down and is past 200 |
| `ScrollEffects.HeaderScroll.constructor` | js/main.js:120-121 | the remembered position is the page's current scroll position; the header starts shown and without `scrolled` |
| `ScrollEffects.HeaderScroll.OnScroll` | js/main.js:123-141 | the header gets the look `LookAfter` gives from the remembered position, which then becomes the current one; a hidden header is always `scrolled` |
| `ScrollEffects.UpwardShows` | js/main.js:134-138 | scrolling up, or not moving, always shows the header |
| `Theme.InitialTheme` | js/main.js:698 | the stored theme, or 'dark' when nothing (or the empty string) is stored |
| `Theme.Toggled` | js/main.js:707 | 'dark' becomes 'light', anything else 'dark'; the result is always one of the two |
| `Theme.IconFor` | js/main.js:726 | the sun icon exactly in the dark theme, otherwise the moon |
| `Theme.ToggleTwice` | js/main.js:707 | two toggles from 'dark' or 'light' return to the start |
| `Theme.ToggleTwiceFromOther` | js/main.js:707 | from any other value, two toggles give 'light' |
| `Theme.ThemeToggle.constructor` | js/main.js:696-702 | the attribute is the initial theme and the icon matches it |
| `Theme.ThemeToggle.Click` | js/main.js:705-711 | the attribute flips, the new value is stored, and the icon still matches the theme |
| `MobileMenu.Menu.constructor` | js/main.js:61-65 | the click listener is installed exactly when both the menu button and the link list exist; the classes start as the page has them |
| `MobileMenu.Menu.Click` | js/main.js:66-69 | with the listener installed, both `active` classes flip, so two elements in step stay in step |

## Left out

- DOM construction and rendering are not modelled. This covers `createChatbotElements`, `bindEvents`, the HTML built in `addMessage` and `escapeHtml`, scrolling the message pane, focusing the input, and clearing the input box after a send. It also covers the typing-indicator helpers and the injected CSS strings. None of these decide which message is stored.
- `Chatbot.PortfolioChatbot`: the widget's own elements are assumed to exist. In the source, a page without `.chatbot-messages` makes `addMessage` throw at chatbot/chatbot.js:121, before the push at :125, so no message is stored; the model always stores it.
- `Math.random()`: the roll is an exact real in [0, 1). Floating-point rounding of `roll * n` is not modelled.
- `JsText.ToLowerCase`: only ASCII letters are mapped, and `toUpperCase` (`JsText.UpperChar`) likewise. Unicode case mapping, including mappings that change a string's length, is not modelled. This can change a reply even though every trigger word is ASCII, because some non-ASCII characters lower-case to ASCII ones. In JavaScript "doc\u212Aer" (with the Kelvin sign) lower-cases to "docker" and gets the tech-stack reply; the model keeps U+212A and gives the default reply. Likewise "HİRE" lower-cases to "hi\u0307re" in JavaScript, which contains "hi" and is a greeting; the model keeps the İ, so "hİre" matches no rule and gets the default reply.
- Strings are sequences of code points. JavaScript's UTF-16 indexing is not modelled. It matters only for `charAt(0)` on a type value that starts outside the Basic Multilingual Plane, and there the result is the same.
- `Responder.GetRandomResponse`: the names JavaScript objects inherit, such as `"toString"`, are not modelled. In the source such a name finds a function rather than a pool. Every caller passes one of the six pool names.
- `Chatbot.PortfolioChatbot.Valid`: pending texts are recorded as non-empty only. The model does not record that they are already trimmed.
- Message timestamps are opaque `Instant` values passed in. The 1000 ms reply delay is the constant `ReplyDelay`. It is used only as the timestamp of the delivered reply in `GreetingConversation`; in general `DeliverReply` takes the delivery time as a parameter and may fire in any order.
- `Konami.Step`: the source compares `join(',')` strings. For the integer key codes a browser reports, that is the same as comparing the sequences. The glitch animation and its 500 ms reset are not modelled.
- `ContactForm.SubmitContactForm`: the notifications, the send-options dialog and the hand-offs are not modelled. These are WhatsApp and mailto URLs with `encodeURIComponent`, the clipboard, `window.open` and `location.href`. The form's own controls are assumed to exist, where a missing one would throw in the source.
- `ContactForm.CreateMessageContent`: the timestamp is the text `toLocaleString()` would give, passed in. The template's line breaks are `\n`, as a template literal yields `\n` whatever the file's line endings are.
- `TypingEffect`: the page without a `.typing` element, where nothing happens, is not modelled. The first call's 2000 ms start delay is the constant `StartDelay`; it enters only `SecondCommandStartsAt`, since the class has no clock.
- `ScrollEffects`: the header is assumed to exist. Scroll positions are reals compared exactly.
- `Theme`: `localStorage` is the `stored` field. The page without a toggle button or icon, where the attribute is set but nothing is clickable or shown, is not modelled. `navigator.vibrate` is left out.
- `MobileMenu`: nothing is left out. The listener is installed only when both elements exist.
- The rest of `js/main.js` is not part of this model. That is smooth scrolling, reveal animations through `IntersectionObserver`, project-card hover, vibration effects, the scroll-progress bar, particles, page transitions, parallax, skill bars and the ripple effect. They are DOM and floating-point effects with no state of their own.
