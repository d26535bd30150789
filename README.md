# DeployBot API client: request shaping

This project models the `DeployBotAPI` class of the WordPress DeployBot API library
(`wp-deploybot-api.php`). The class wraps the DeployBot REST API (users, deployments,
repositories, environments, servers). Each public method turns its arguments into a request:
a route below the account's API root, a parameter array, and an HTTP method. It hands that
request to `run`, which builds and fetches it through the base class.

The model covers everything the class itself computes:

- the client object (`DeployBot.DeployBotApi`): the API key, the API root
  `https://<subdomain>.deploybot.com/api/v1/`, and the `args` array with `set_headers` and
  `clear`;
- `parse_args`, the parameter cleansing every list endpoint uses. It is a loop over the
  argument array (`DeployBot.ParseArgs`) proved equal to `array_merge($merge, <the non-null
  entries>)` (`DeployBot.ParseArgsSpec`). Lemmas state what that means: which entries are kept,
  in what order, with what values, how the merge array combines with them, and idempotence;
- the eleven endpoints, each stated as exactly the request it produces;
- `response_code_msg`, the status-code message table.

`run` is modelled as a function that returns the request instead of sending it
(`DeployBot.Run`). PHP arrays with string keys are ordered maps. They are modelled in module
`PhpValues` as sequences of (key, value) pairs with unique keys (`UniqueKeys`). That module
also models `$a[$k] = $v` (`Put`), `array_merge` (`ArrayMerge`) and the string conversion
done by `.` (`PhpString`). Parameter values are `PhpValues.Value`, which includes `Null`.

The class checks none of its inputs. `'users/' . null` is the route `users/`, the constructor
accepts empty strings, and `trigger_deployment` sends the caller's array as is, nulls included.

## Model

| member | source | states |
|---|---|---|
| `PhpValues.PutSpec` | wp-deploybot-api.php:142 | `$m[$k] = $v`: k then holds v and every other key keeps its value. The key order is unchanged, except that a new key is appended last. A well-formed array stays well-formed |
| `PhpValues.ArrayMergeKeys` | wp-deploybot-api.php:148 | `array_merge($a, $b)` with string keys: a's keys come first in their order, then the keys only b has, in b's order. The result has unique keys |
| `PhpValues.ArrayMergeLookup` | wp-deploybot-api.php:148 | `array_merge($a, $b)` with string keys: a key of b takes b's value, and any other key keeps a's |
| `PhpValues.ArrayMergeOntoEmpty` | wp-deploybot-api.php:148 | `array_merge(array(), $m)` returns m unchanged |
| `PhpValues.ArrayMergeMembers` | wp-deploybot-api.php:148 | every entry of `array_merge($a, $b)` comes from a or from b |
| `PhpValues.PhpString` | wp-deploybot-api.php:177 | the string `.` makes of an id: a string as is; an integer as its canonical decimal numeral (optional `-`, no leading zero), which reads back as that integer; `true` as `1`; an array as `Array`; and the empty string exactly for null and false |
| `PhpValues.CanonicalIntStringUnique` | wp-deploybot-api.php:177 | a canonical numeral is the string of exactly one integer: converting the integer it reads as gives the same string back |
| `PhpValues.IntStringRoundTrip` | wp-deploybot-api.php:177 | an integer id converted to a string is a well-formed numeral, and parsing it gives the id back |
| `DeployBot.BaseUri` | wp-deploybot-api.php:89-91 | the API root is `https://` + subdomain + `.deploybot.com/api/v1/`, and the subdomain can be read back from it |
| `DeployBot.DeployBotApi.constructor` | wp-deploybot-api.php:66-69 | construction stores the API key, sets the API root from the subdomain, and leaves `args` null |
| `DeployBot.DeployBotApi.SetApiKey` | wp-deploybot-api.php:78-80 | the key is replaced; the API root and `args` are unchanged |
| `DeployBot.DeployBotApi.SetSubdomain` | wp-deploybot-api.php:89-91 | the API root is set from the new subdomain; the key and `args` are unchanged |
| `DeployBot.DeployBotApi.SetHeaders` | wp-deploybot-api.php:99-104 | `args["headers"]` becomes exactly `{X-Api-Token: key, Accept: application/json}`. Every other entry of `args` keeps its value and its place, and a null `args` becomes an array |
| `DeployBot.DeployBotApi.Clear` | wp-deploybot-api.php:112-114 | `args` becomes the empty array; nothing else changes |
| `DeployBot.Run` | wp-deploybot-api.php:125-127 | the request handed on is the given route, body and method. The body defaults to empty and the method to GET |
| `DeployBot.ParseArgs` | wp-deploybot-api.php:137-149 | the `foreach` loop with its null test computes `array_merge($merge, <the non-null entries of $args in order>)` |
| `DeployBot.CleansedMembers` | wp-deploybot-api.php:140-146 | an entry is kept if and only if it is an entry of the arguments with a non-null value. The non-empty-array branch adds nothing, because a null is never an array |
| `DeployBot.CleansedIsSubsequence` | wp-deploybot-api.php:140-142 | the kept entries keep their original relative order |
| `DeployBot.CleansedUnique` | wp-deploybot-api.php:140-146 | the kept entries of a well-formed array form a well-formed array |
| `DeployBot.CleansedLookup` | wp-deploybot-api.php:140-146 | the cleansed array has a key if and only if the argument has it with a non-null value, and it keeps that same value |
| `DeployBot.ParseArgsMerge` | wp-deploybot-api.php:137-149 | `parse_args($args, $merge)` lists the merge keys first, then the kept keys that merge lacks. A key with a non-null argument value takes that value; any other key keeps merge's value |
| `DeployBot.ParseArgsAlone` | wp-deploybot-api.php:137-149 | with no merge array, `parse_args` returns just the kept entries |
| `DeployBot.ParseArgsIdempotent` | wp-deploybot-api.php:137-149 | running `parse_args` again on its own result, with nothing to merge, changes nothing, provided the merge array held no nulls |
| `DeployBot.GetUsers` | wp-deploybot-api.php:159-166 | GET `users`. `limit` is always sent; `after` is sent only when not null |
| `DeployBot.GetUser` | wp-deploybot-api.php:176-178 | GET `users/` + the id as a string, with an empty body |
| `DeployBot.ListDeployments` | wp-deploybot-api.php:190-199 | GET `deployments`. `repository_id`, `environment_id` and `after` are sent only when not null, and `limit` always, in that order |
| `DeployBot.GetDeployment` | wp-deploybot-api.php:209-211 | GET `deployments/` + the id, with an empty body |
| `DeployBot.TriggerDeployment` | wp-deploybot-api.php:227-230 | POST `deployments` with the caller's array and `environment_id` set or overwritten. No other key or value changes, so nulls pass through. A new key goes last, and keys stay unique |
| `DeployBot.GetRepository` | wp-deploybot-api.php:239-241 | GET `repositories/` + the id, with an empty body |
| `DeployBot.ListRepositories` | wp-deploybot-api.php:251-258 | GET `repositories`. `limit` is always sent; `after` only when not null |
| `DeployBot.GetEnvironment` | wp-deploybot-api.php:267-269 | GET `environment/` + the id, with an empty body |
| `DeployBot.ListEnvironments` | wp-deploybot-api.php:280-288 | GET `environments`. `repository_id` and `after` are sent only when not null. `limit` is always 50, whatever limit is passed |
| `DeployBot.ListEnvironmentsIntended` | wp-deploybot-api.php:275-277 | the documented behaviour: the same request, but with the caller's `limit` |
| `DeployBot.ListEnvironmentsIgnoresLimit` | wp-deploybot-api.php:276-283 | the as-written request always carries limit 50. It equals the documented one exactly when the caller's limit is 50 |
| `DeployBot.GetServer` | wp-deploybot-api.php:297-299 | GET `server/` + the id, with an empty body |
| `DeployBot.ListServers` | wp-deploybot-api.php:312-321 | GET `servers`. `repository_id`, `environment_id` and `after` are sent only when not null, and `limit` always, in that order |
| `DeployBot.ItemRoutes` | wp-deploybot-api.php:165-298 | the single-user, single-deployment and single-repository routes are their list routes + `/` + id. The single-environment and single-server routes are not, because they use the singular name |
| `DeployBot.ResponseCodeMsg` | wp-deploybot-api.php:330-355 | 200, 400, 401, 403, 422 and 500 get their fixed messages. Every other code gets "Response code unknown." |
| `DeployBot.ResponseCodeMsgIdentifiesCode` | wp-deploybot-api.php:330-355 | the fallback message is given exactly for codes outside the table, and the six known codes get six different messages |

## Left out

- `build_request`, `fetch` and the rest of the base class `WpDeployBotBase`: wp-api-libraries-base.php is not part of this model. They do the HTTP exchange and JSON decoding. `run` returns the request it would send, not the response.
- How the request builder uses `args`, `base_uri` and the headers: that happens in the base class.
- WordPress glue: the plugin header, the `ABSPATH` exit guard and the `class_exists` include logic. They are not request shaping.
- `__()` translation: each message is its literal English text.
- PHP's loose comparison in `switch` and the `$code = ''` default of `response_code_msg`: codes are integers.
- `intval` on arbitrary values and PHP's coercion of `int $limit` arguments: limits are integers.
- `array_merge`'s renumbering of integer keys: the class only uses string keys.
- The declared but unused `$api_token` field: the dynamically created `api_key` is the single `apiKey` field.
- Floats and objects as parameter values, and their string conversion: `Value` has null, booleans, integers, strings and arrays.
- `DeployBot.ParseArgs` requires its argument array to have unique keys. A PHP array always does.

## Findings

| source | as written | input that shows it | evidently intended | confidence | as-written member | corrected member |
|---|---|---|---|---|---|---|
| wp-deploybot-api.php:283 | `list_environments` sends `'limit' => 50` and never reads its `int $limit` parameter | `list_environments(null, 10)` sends `limit = 50` | send the caller's `$limit`, as the doc comment at line 276 describes | high; not executed | `DeployBot.ListEnvironments` (shown by `DeployBot.ListEnvironmentsIgnoresLimit`) | `DeployBot.ListEnvironmentsIntended` |
