# WPMailFrom in Dafny

A model of the WordPress plugin class `woprsk\WPMailFrom` (`wp-mail-from.php`),
which adjusts outgoing mail: it forces the "From" address and name, rewrites
the site's home URL inside message bodies, and, for the length of one send,
sets `$_SERVER['SERVER_NAME']` when it is missing (WordPress reads it to build
its fallback from-address, and it is missing under wp-cli).

Layout, one module per concern:

- `php.dfy` (`Php`): PHP values as the plugin inspects them (`null`, a string,
  anything else), `empty()` on strings (true for `""` and `"0"`) and `isset()`
  on an array key (present and not null).
- `strings.dfy` (`Strings`): the anchored, case-sensitive `www.` strip done by
  `preg_replace('/^www\./', …)`, and `str_replace` as a left-to-right,
  non-overlapping replace-all. `str_replace` is tied to an independent
  definition, `explode` then `implode` (`Split`, `Join`): splitting and joining
  with the pattern gives the input back, no piece contains the pattern, the
  scan takes the leftmost match and resumes after it, and the replace-all is
  the split joined with the replacement. With a pattern that overlaps itself
  an occurrence can straddle a cut (`"aa"` in `"aaa"` is replaced once, at
  position 0), as in PHP. An empty search
  string leaves the subject as it is, as in PHP.
- `hooks.dfy` (`Hooks`): the host's hook registry as an append-only log of
  `add_filter` / `add_action` registrations (hook, callback method name,
  priority). Every callback is a method of the one plugin instance.
- `server.dfy` (`Server`): `$_SERVER` as an object holding a map that the
  plugin's methods update in place, and the two changes made to its
  `SERVER_NAME` entry, with the lemmas about one set/cleanup cycle.
- `mail_from.dfy` (`MailFrom`): the class itself, with its five public
  fields. The constructor, `SetupVars`, `SetServerVar` and `UnsetServerVar`
  are methods that update the object, the registry and the server variables;
  `WpMailFrom`, `WpMailFromName` and `WpMailBody` are functions of the
  object's fields. `Plugin.Instance` is the static singleton accessor.
- `mail_send.dfy` (`MailSend`): one outgoing mail as the plugin's callbacks
  see it (`SendMail`), two sends in one request showing that the leftover
  cleanup removes a `SERVER_NAME` set by other code in between (`TwoSends`),
  and the setup and body examples.

Host calls become inputs: `WP_MAIL_FROM` and `WP_MAIL_HOME` are `Option`s
(absent when the constant is not defined), `filter_var` with
`FILTER_VALIDATE_EMAIL` / `FILTER_VALIDATE_URL` are the predicate parameters
`isEmail` / `isUrl`, `home_url()` is the `homeUrl` parameter of `WpMailBody`,
and `is_multisite()`, `get_current_site()`, `get_bloginfo()` and `parse_url`
are summed up by the `Site` value given to `SetupVars`.

Points where the code decides and a plain reading of the plugin's purpose
might not:

- `empty()` is PHP's: a from-address or a replacement URL equal to `"0"`
  counts as empty, so setup replaces such an address and the body filter does
  nothing with such a URL.
- A URL without a host makes `parse_url` return null, which `preg_replace`
  turns into `""`; the domain is then empty.
- The cleanup only unsets a `SERVER_NAME` that `isset` sees; a null entry
  stays. Starting from a null entry, one set/cleanup cycle therefore drops the
  key instead of restoring it (`Server.CycleUnsets`).
- The cleanup filter, once registered, stays registered for the rest of the
  request. In a later send where `SERVER_NAME` was already set by someone
  else, the workaround leaves it alone but the old cleanup still removes it
  (`MailSend.TwoSends`, `MailSend.SendMail`, `Server.CleanupRemovesPreexisting`).

## Model

| member | source | states |
|---|---|---|
| `Php.Empty` | wp-mail-from.php:72 | PHP `empty()` on a string: true for `""`, false for any string of two or more characters, and for one character true exactly for `"0"` |
| `Php.IsSet` | wp-mail-from.php:127 | PHP `isset($m[$key])`: false for a missing key; for a present key true exactly when its value is not null |
| `Strings.StripWww` | wp-mail-from.php:70 | a host starting with `www.` loses exactly that prefix; any other host (including `WWW.`) is returned unchanged |
| `Strings.StripWwwOnce` | wp-mail-from.php:70 | only one leading `www.` is stripped: `www.` followed by any host gives back that host |
| `Strings.StrReplace` | wp-mail-from.php:107 | an empty search leaves the subject; otherwise the result is the subject split at the search string and joined with the replacement; a subject without the search string is unchanged |
| `Strings.JoinSplit` | wp-mail-from.php:107 | splitting at a pattern and joining with the same pattern gives the input back |
| `Strings.ReplaceAll` | wp-mail-from.php:107 | the left-to-right, non-overlapping scan of `str_replace`; a string in which the pattern does not occur is not changed |
| `Strings.SplitPiecesAreFree` | wp-mail-from.php:107 | no piece of the split contains the pattern |
| `Strings.SplitFindsLeftmost` | wp-mail-from.php:107 | the first piece is a prefix of the input and the pattern starts at none of its positions: the scan takes the leftmost match |
| `Strings.SplitResumesAfterMatch` | wp-mail-from.php:107 | a single piece is the whole input; otherwise the pattern starts right after the first piece and the other pieces are the split of what follows that match, so matches never overlap |
| `Strings.ReplaceAllIsJoinOfSplit` | wp-mail-from.php:107 | the left-to-right replace-all equals the split joined with the replacement |
| `Strings.ReplaceAllBySelf` | wp-mail-from.php:107 | replacing a pattern by itself changes nothing |
| `Strings.ShortHasNoOccurrence` | wp-mail-from.php:107 | a string shorter than the pattern does not contain it |
| `Strings.ReplaceAllCopiesPrefix` | wp-mail-from.php:107 | a leading part at none of whose positions the pattern starts is copied through unchanged |
| `Hooks.Registry.AddFilter` | wp-mail-from.php:49-51 | a filter registration is appended to the log and nothing else changes |
| `Hooks.Registry.AddAction` | wp-mail-from.php:60 | an action registration is appended to the log and nothing else changes |
| `Server.WithServerName` | wp-mail-from.php:127-131 | afterwards `SERVER_NAME` is set; a set entry is untouched; an unset one gets the placeholder; every other key keeps its value |
| `Server.WithoutServerName` | wp-mail-from.php:153-155 | afterwards `SERVER_NAME` is not set; a set entry is removed, a null one stays; every other key keeps its value |
| `Server.CycleRestores` | wp-mail-from.php:123-159 | starting without a `SERVER_NAME` entry, the workaround then the cleanup give back the original server variables |
| `Server.CycleUnsets` | wp-mail-from.php:123-159 | from any start, `SERVER_NAME` is not set after a cycle; starting unset, the key is gone |
| `Server.CleanupRemovesPreexisting` | wp-mail-from.php:127-133 | with `SERVER_NAME` already set the workaround changes nothing, and a cleanup run afterwards removes the entry |
| `MailFrom.Accepted` | wp-mail-from.php:47 | a configuration constant is accepted exactly when it is defined and its validator (`filter_var`) accepts its value |
| `MailFrom.ConstructorHooks` | wp-mail-from.php:47-60 | the three from filters at 999 are registered iff `WP_MAIL_FROM` is accepted, the body filter at 999 iff `WP_MAIL_HOME` is accepted, the cleanup never; the `wp_loaded` setup action comes last, always; nothing else |
| `MailFrom.WPMailFrom.constructor` | wp-mail-from.php:45-61 | username is `no-reply`; `emailFrom` / `emailHomeUrl` hold the constant only when defined and valid, else `""`; the registry gains exactly `ConstructorHooks` for the two guards |
| `MailFrom.SiteDomain` | wp-mail-from.php:70 | multisite: the network domain verbatim; single site: the URL host with one leading `www.` removed, `""` when the URL has no host |
| `MailFrom.SiteName` | wp-mail-from.php:71 | multisite: the network's site name; single site: the blog name |
| `MailFrom.FromAddress` | wp-mail-from.php:72 | a non-empty address is kept; an empty one becomes `username@domain`; the result is never empty |
| `MailFrom.FromAddressSettled` | wp-mail-from.php:72 | a second derivation, with any username and domain, keeps the address the first produced |
| `MailFrom.WPMailFrom.SetupVars` | wp-mail-from.php:68-73 | sets `domain` and `fromName` from the site and `emailFrom` by `FromAddress`; no other field changes |
| `MailFrom.WPMailFrom.WpMailFrom` | wp-mail-from.php:81-84 | the proposed address is ignored; the result is `emailFrom`; no state changes |
| `MailFrom.WPMailFrom.WpMailFromName` | wp-mail-from.php:92-95 | the proposed name is ignored; the result is `fromName`; no state changes |
| `MailFrom.WPMailFrom.RewritesBody` | wp-mail-from.php:105 | with an empty (in PHP's sense) replacement URL the guard fails; otherwise it holds exactly when `message` is present and a string |
| `MailFrom.WPMailFrom.WpMailBody` | wp-mail-from.php:103-111 | same keys; every key but `message` keeps its value; without a non-empty replacement URL or a string `message` the map is returned as is; otherwise `message` is `str_replace(home_url(), emailHomeUrl, message)` |
| `MailFrom.BodyUntouchedUnlessConfigured` | wp-mail-from.php:105 | empty replacement URL, missing `message`, or non-string `message` leaves the attributes unchanged |
| `MailFrom.BodyWithoutHomeUrl` | wp-mail-from.php:103-111 | a message that does not mention the home URL leaves the attributes unchanged |
| `MailFrom.BodyReplacesScannedOccurrences` | wp-mail-from.php:107 | the new message is the old one cut at the occurrences of the home URL that the left-to-right scan finds, with the replacement URL in each cut, and no piece mentions the home URL |
| `MailFrom.WPMailFrom.SetServerVar` | wp-mail-from.php:123-138 | the attributes pass through; the server variables become `WithServerName(old, domain)`; the cleanup at priority 1 on `wp_mail_from` is registered iff `SERVER_NAME` was not set |
| `MailFrom.WPMailFrom.UnsetServerVar` | wp-mail-from.php:149-159 | the address passes through; the server variables become `WithoutServerName(old)` |
| `MailFrom.Plugin.Instance` | wp-mail-from.php:33-40 | the first call constructs a fresh instance with the constructor's field values (`no-reply`, empty name and domain, the accepted constants) and registers its hooks; later calls return the same object and register nothing |
| `MailSend.SendMail` | wp-mail-from.php:123-159 | with the workaround and from filters registered: the from-address is `emailFrom`; the body is `WpMailBody`'s when the body filter is registered, else untouched; from an unset `SERVER_NAME` the cleanup is appended to the registry and the entry is gone afterwards (the map is restored when there was no key); from a set one the registry is unchanged and the entry survives unless an earlier send left the cleanup registered |
| `MailSend.TwoSends` | wp-mail-from.php:127-133 | when other code sets `SERVER_NAME` between two sends, the cleanup left registered by the first send removes it in the second; the registry gains one cleanup and the server variables end as they began |
| `MailSend.SetupExample` | wp-mail-from.php:68-73 | host `www.example.com` gives `example.com`; no configured address gives `no-reply@example.com`; `hello@x.com` is kept |
| `MailSend.DomainExamples` | wp-mail-from.php:70 | `shop.example.com` and `WWW.example.com` are kept; `www.www.example.com` gives `www.example.com` |
| `MailSend.ReplaceOneOccurrence` | wp-mail-from.php:107 | a message `before + home + after` in which the home URL starts at no position of `before` (matches running into the rest included) and does not occur in `after` has exactly that one occurrence replaced |
| `MailSend.BodyExample` | wp-mail-from.php:107 | `Visit https://site.test/page` becomes `Visit https://public.test/page` |

## Left out

- WordPress hook dispatch (`apply_filters`, priority ordering, the duplicate-callback check inside `add_filter`): the registry is only the log of registrations; `MailSend.SendMail` calls the plugin's callbacks in the order the host would.
- `filter_var` email and URL validation: these are the predicate parameters `isEmail` and `isUrl`, not reimplemented.
- `parse_url`, `get_bloginfo`, `get_current_site`, `is_multisite`, `home_url`: host and library calls whose results are inputs (`Site`, `homeUrl`).
- Configuration constants that are not strings: `WP_MAIL_FROM` and `WP_MAIL_HOME` are modelled as strings when defined.
- The bootstrap registration on `muplugins_loaded` (wp-mail-from.php:166) and the static field's lifetime across requests: `Plugin` holds the one instance for the life of the model.
- PHP strings are byte strings; the model uses sequences of characters, which does not change `str_replace` or the prefix match.
- The ordering of PHP arrays: attributes and server variables are maps; replacing an existing key keeps its place in PHP, so nothing observable is lost.
- Sending the mail itself (SMTP, delivery): done entirely by WordPress.
