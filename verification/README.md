# essential_nestjs_task — a Dafny model of its services

This project models the logic of the NestJS back end `essential_nestjs_task`
that can be stated without a running server:

- **Object storage** (`MinioService`, `UploadService`). Uploads build an
  object key `folder/timestamp-name`, where each whitespace run in the name
  becomes a dash. They store the file and report the public URL
  `protocol://endpoint:port/bucket/key`. `MinioService` also reports a
  presigned download link. Deletes split such a URL on `/bucket/` and remove
  the object named by the second piece.
- **Authentication** (`AuthService`, `JwtStrategy`).
  - Credential checking returns the stored user without its `password`.
  - `login` builds a public view of the user and a signed `{ email, sub }`
    token.
  - `register` is creation followed by `login`.
  - The JWT strategy turns verified claims back into `{ userId, email }`.
- **In-memory users** (`UserService`): a fixed list and a find-first by id.
- **Request validation**: the four DTO classes as declarative rule lists,
  checked by one generic engine (`ClassValidator`). The engine follows the
  global `ValidationPipe` (`whitelist`, `forbidNonWhitelisted`,
  `transform`), including the `published` string-to-boolean transform.

Everything is pure functions on immutable values.
- JavaScript values are a small datatype (`JsValues`).
  - Plain objects are maps from property names to values.
  - `x || d` becomes an explicit fallback for an unset or empty setting.
  - A default parameter applies only to a missing argument (`Option`).
- Effects the services depend on are function parameters:
  - the MinIO client (`ObjectStore`);
  - the clock;
  - bcrypt's `compare`;
  - the JWT signer;
  - `usersService.findOne` and `create`;
  - the validator's e-mail grammar.
- Each storage operation returns its result together with the list of client
  calls it made (`Traced`). This lets contracts say which object a delete
  removes, and that a rejected request makes no call at all.

Modules:
- `Wrappers`: `Option`, `Result`.
- `JsValues`: values, property reads, truthiness, rest-destructuring.
- `Strings`: `indexOf`, `split`, `join`, decimal numerals.
- `FileNames`: the whitespace-to-dash clean-up.
- `StorageCommon`: the configuration, keys, URLs and client calls the two storage services share.
- `MinioService`, `UploadService`.
- `AuthService`, `JwtStrategy`, `UserService`.
- `ClassValidator`, plus one module per DTO class: `CreatePostDto`, `RegisterDto`, `CreateUserDto`, `UserDto`.

## Model

| member | source | states |
|---|---|---|
| MinioService.Upload | src/minio/minio.service.ts:82-118 | A missing file fails with "No file provided" and makes no client call. Otherwise the first call is `putObject` of the key built from the folder (default `posts`), the clock and the cleaned name, with the file's size and content type. A rejected put is the only call. An accepted put is followed by exactly one presign of that key for 86400 seconds. The upload succeeds exactly when the put and the presign both succeed. It then reports the public URL of that key and a link presigned for 86400 seconds. Any client failure becomes "Failed to upload file". |
| MinioService.UploadMultiple | src/minio/minio.service.ts:120-126 | Succeeds exactly when the upload of every file succeeds. It then has one result per file, and the i-th result is the i-th file's upload. A failure is the error of the first file whose upload failed, so it is "No file provided" or "Failed to upload file". Every present file's `putObject` is made, even when another upload fails. |
| MinioService.Delete | src/minio/minio.service.ts:128-141 | A URL without `/bucket/` fails with "Failed to delete file" and makes no client call. Otherwise exactly one `removeObject` call is made, on the piece after the first `/bucket/`. The delete succeeds exactly when that call does. Every failure, the inner "Invalid file URL" included, ends as "Failed to delete file". |
| MinioService.UploadThenDelete | src/minio/minio.service.ts:106-134 | Deleting by the URL a successful upload reported removes exactly the uploaded object if and only if its key does not contain `/bucket/`. This assumes the origin and bucket do not themselves contain the bucket segment. |
| UploadService.UploadFile | src/upload/upload.service.ts:53-85 | A missing file fails with "No file provided" and makes no call. Otherwise there is exactly one `putObject` of the `folder/timestamp-name` key. On success the result is the public URL of that key; any failure is "Failed to upload file". |
| UploadService.UploadMultipleFiles | src/upload/upload.service.ts:87-93 | Succeeds exactly when every file's upload does. It yields one URL per file, in file order. A failure is the error of the first file whose upload failed, so it is "No file provided" or "Failed to upload file". Every present file's `putObject` is made, even when another upload fails. |
| UploadService.DeleteFile | src/upload/upload.service.ts:95-109 | A URL lacking `/bucket/` ends in "Failed to delete file" with no call. Otherwise one `removeObject` call is made, on the second split piece. Every failure is "Failed to delete file". |
| UploadService.UploadFileThenDeleteFile | src/upload/upload.service.ts:80-104 | `deleteFile` on the URL `uploadFile` returned targets the uploaded key if and only if that key does not contain `/bucket/`. |
| UploadService.GetPresignedUrl | src/upload/upload.service.ts:111-126 | Exactly one presign call is made, with a lifetime of 3600 seconds unless one is given. The result is the client's link, or "Failed to generate presigned URL" when the client fails. |
| StorageCommon.OrDefault | src/minio/minio.service.ts:11-16 | A configuration value is used when it is set and non-empty; otherwise the default is used. A non-empty default never yields an empty setting. |
| StorageCommon.ObjectKeyShape | src/minio/minio.service.ts:90 | The key is the folder and `/`, followed by the decimal timestamp, `-` and the cleaned name. It holds whitespace exactly when the folder does. |
| StorageCommon.ObjectKeyInjective | src/minio/minio.service.ts:90 | Within one folder, equal keys come from equal timestamps and equal cleaned names. |
| StorageCommon.PublicUrlShape | src/minio/minio.service.ts:101-106 | The URL starts with `https://` exactly when `MINIO_USE_SSL` is `true`, and with `http://` exactly when it is not. It ends with the object key. |
| StorageCommon.DefaultEnvUnambiguous | src/minio/minio.service.ts:101-106 | With nothing configured, URLs have the form `http://localhost:9000/uploads/<key>` for every key. The origin and bucket do not contain `/uploads/`, so the upload/delete round trip depends on the key alone. |
| StorageCommon.ObjectNameFromUrl | src/minio/minio.service.ts:130-134 | No object name exactly when the URL lacks the `/bucket/` segment; that is the "Invalid file URL" case. Otherwise the name is the text after the first `/bucket/`, up to the next one or to the end of the URL, so it never contains that segment. |
| StorageCommon.DeleteRecoversKey | src/minio/minio.service.ts:130-134 | The name recovered from a public URL is the key it was built from if and only if the key does not contain the bucket segment. |
| StorageCommon.All | src/minio/minio.service.ts:124-125 | The combined operation succeeds exactly when every operation does. Its values are theirs, in input order. A failure is the failure of the first operation that failed, and every operation before it succeeded. Every operation runs, failed or not: the combined calls are, as a multiset, exactly the calls of all operations. |
| StorageCommon.AllResults | src/minio/minio.service.ts:125 | Every value in input order when all operations succeed; otherwise the error of the first one that failed. |
| StorageCommon.AllCalls | src/minio/minio.service.ts:124-125 | The calls of all operations, with multiplicity. Each operation's calls are among them. |
| StorageCommon.AllFailsWithOneOf | src/minio/minio.service.ts:125 | A combined failure is an error that one of the operations failed with. |
| StorageCommon.AllKeepsCall | src/minio/minio.service.ts:124 | A call made by any one operation is among the combined calls. |
| StorageCommon.PutFile | src/minio/minio.service.ts:86-99 | A missing file is rejected with no call. Otherwise exactly one `putObject` call is made, on the built key with the file's size and content type. It succeeds with that key exactly when the client accepts. |
| StorageCommon.Rethrow | src/minio/minio.service.ts:137-139 | A catch-and-rethrow keeps the calls and a success unchanged, and replaces any error by a bad request with the given message. |
| FileNames.Sanitise | src/minio/minio.service.ts:90 | The cleaned name contains no whitespace and is never longer than the original. |
| FileNames.SanitiseIsScan | src/minio/minio.service.ts:90 | The greedy, left-to-right `\s+` replacement equals a scan that emits one dash at the first character of each whitespace run and nothing for the rest of the run. |
| FileNames.SanitiseIdempotent | src/minio/minio.service.ts:90 | Cleaning a cleaned name changes nothing. |
| FileNames.SanitiseKeepsNonWhitespace | src/minio/minio.service.ts:90 | A non-whitespace character is kept in place. The text on either side of it is cleaned independently. |
| FileNames.SanitiseCollapsesRun | src/minio/minio.service.ts:90 | A whitespace run of any length followed by a non-whitespace character becomes exactly one dash. |
| Strings.SplitSecondPiece | src/minio/minio.service.ts:130-134 | When the separator occurs, `split` has at least two pieces, and the second is the text after the first occurrence, up to the next occurrence or the end. |
| Strings.JoinSplit | src/minio/minio.service.ts:130 | Joining the pieces of a split with the separator gives back the original string, so `split` loses only the separators. |
| Strings.DecimalRoundTrip | src/minio/minio.service.ts:90 | The timestamp's decimal rendering reads back as the timestamp. |
| Strings.DecimalPrefixUnique | src/minio/minio.service.ts:90 | In `timestamp-rest`, the timestamp and the rest are determined by the text. |
| JsValues.Omit | src/auth/auth.service.ts:19 | `const { password, ...rest } = user` drops exactly the `password` property and keeps every other property with its value. |
| AuthService.ValidateUser | src/auth/auth.service.ts:13-24 | A user is returned if and only if `findOne` finds one, its stored password is truthy and `compare` accepts the given password. The returned user lacks `password` and has every other property unchanged. |
| AuthService.ValidateUserSkipsCompare | src/auth/auth.service.ts:14-16 | An unknown e-mail, or a missing or empty stored password, gives `null` whatever the password check would answer. |
| AuthService.LoginPayload | src/auth/auth.service.ts:26 | The token payload has exactly the properties `email` and `sub`, holding the user's e-mail and id. |
| AuthService.Login | src/auth/auth.service.ts:25-46 | Login always succeeds with "Login successful", type `Bearer` and `expiresIn` `1h`, whatever the verification state. The token is the signature of the payload. The public view copies id, name, e-mail, role and `isVerified`, and shows `displayImage` as `avatar`. |
| AuthService.LoginIgnoresPassword | src/auth/auth.service.ts:31-39 | Removing or replacing the stored password changes nothing in the login response. |
| AuthService.AdvertisedLifetimeIsSigningLifetime | src/auth/auth.service.ts:40-43 | The `1h` reported to the client is the same 3600 seconds as the `60m` the signer is configured with in `src/auth/auth.module.ts`. |
| AuthService.Claims | src/auth/auth.service.ts:39 | The signer keeps every payload property and adds an expiry one session lifetime after the issue time. |
| AuthService.LoginSessionRoundTrip | src/auth/auth.service.ts:26-39 | Validating the claims of a token issued by login gives back the user's id and e-mail. The token's expiry is the issue time plus the advertised lifetime. |
| AuthService.Register | src/auth/auth.service.ts:48-56 | Register succeeds exactly when creation does. It returns the created user without `password`, other properties unchanged, together with the login response for that user. |
| JwtStrategy.Validate | src/auth/jwt.strategy.ts:16-18 | The principal's `userId` is the `sub` claim and its `email` is the `email` claim. |
| JwtStrategy.ValidateIgnoresOtherClaims | src/auth/jwt.strategy.ts:16-18 | Claims other than `sub` and `email` make no difference to the principal. |
| UserService.FindById | src/user/user.service.ts:12-14 | The result is nothing exactly when no user has the id. Otherwise it is the first user in list order with that id. |
| UserService.GetAllUsers | src/user/user.service.ts:5-11 | Returns Alice (id 1) then Bob (id 2), and nothing else. Each of them is what a lookup by its own id returns. |
| UserService.GetUserById | src/user/user.service.ts:12-14 | A found user has the requested id and is one of the seeded users. Nothing is found exactly when the id is neither 1 nor 2. |
| UserService.SeededLookups | src/user/user.service.ts:5-14 | Id 1 finds Alice, id 2 finds Bob, and every other id finds nothing. |
| ClassValidator.Errors | src/main.ts:15-21 | A body is accepted exactly when it has only declared properties and every declared property passes. |
| ClassValidator.ErrorsExactly | src/main.ts:15-21 | A message is reported exactly when it is the message of a check that fires, or the whitelist message of an undeclared property of the body. |
| ClassValidator.UnknownPropertyErrors | src/main.ts:17-18 | No whitelist message exactly when every property of the body is declared. Each undeclared property gets its "should not exist" message. |
| ClassValidator.PropertyErrors | src/main.ts:15-21 | A property reports nothing exactly when it passes. It reports the message of every check that fires, and no other message. |
| ClassValidator.TextLength | src/post/dto/create-post.dto.ts:14-15 | The length `@MinLength` and `@MaxLength` measure: one per code point, skipping the variation selectors U+FE0E and U+FE0F. It never exceeds the number of characters. |
| ClassValidator.TextLengthCounts | src/post/dto/create-post.dto.ts:14-15 | The measured length plus the number of variation selectors is the number of characters. |
| CreatePostDto.Transform | src/post/dto/create-post.dto.ts:23-24 | With `transform` on, the body keeps its property names and every property except `published` unchanged. A `published` property that was sent is replaced by the transform's boolean. |
| CreatePostDto.Validate | src/post/dto/create-post.dto.ts:11-27 | A post is accepted exactly when it is well-formed: only declared properties, a string title of 5 to 150 characters, and content absent, null or a string of at most 5000 characters. The typed post then carries that title and content. `published` is absent when none was sent. A sent `published` always becomes a boolean, true exactly for the string `"true"` or the boolean `true`, and false otherwise. A rejection carries at least one message. |
| CreatePostDto.ErrorsEmptyIffWellFormed | src/post/dto/create-post.dto.ts:11-27 | The validator reports no message for a body exactly when that body is well-formed. |
| CreatePostDto.PublishedFlag | src/post/dto/create-post.dto.ts:24 | The transform yields a boolean, and it is true exactly for `'true'` or `true`. |
| CreatePostDto.TitleOk | src/post/dto/create-post.dto.ts:12-16 | The title passes exactly when it is a string of 5 to 150 characters. |
| CreatePostDto.ContentOk | src/post/dto/create-post.dto.ts:18-21 | Content passes exactly when it is null, absent or a string of at most 5000 characters. |
| CreatePostDto.TitleRequiredReported | src/post/dto/create-post.dto.ts:12 | "Title is required" is reported exactly when the title is missing, null or the empty string. |
| CreatePostDto.PublishedNeverRejected | src/post/dto/create-post.dto.ts:23-26 | After the transform `published` is always a boolean, so its check never fires. |
| RegisterDto.ErrorsEmptyIffWellFormed | src/auth/dto/register.dto.ts:9-29 | A body is accepted exactly when it has only declared properties, a non-empty e-mail address, a non-empty string name, and a string password of at least 6 characters. Display image and role must each be absent, null or a string. |
| RegisterDto.PropertiesOk | src/auth/dto/register.dto.ts:10-28 | Each property's decorators written out as a condition on its value. |
| CreateUserDto.ErrorsEmptyIffWellFormed | src/user/dto/user.dto.ts:10-30 | A body is accepted exactly when it has only declared properties, a non-empty e-mail address, a non-empty string name, and a string password of at least 6 characters. Display image must be absent, null or a string, and role absent, null, `user` or `admin`. |
| CreateUserDto.PropertiesOk | src/user/dto/user.dto.ts:11-29 | Each property's decorators written out as a condition on its value. |
| CreateUserDto.RoleNotAllowedReported | src/user/dto/user.dto.ts:27-29 | The "role must be one of the following values: user, admin" message is reported exactly when a role is given that is neither `user` nor `admin`. |
| UserDto.ErrorsEmptyIffWellFormed | src/auth/dto/user.dto.ts:9-30 | A body is accepted exactly when it has only declared properties, an id present and not empty, an e-mail address and a boolean `isVerified`. Name, display image and role must each be absent, null or a string. |
| UserDto.PropertiesOk | src/auth/dto/user.dto.ts:10-29 | Each property's decorators written out as a condition on its value. |

## Left out

- The MinIO client is represented only by the outcomes of its calls. Not modelled: the connection, `initBucket`, `setPublicReadPolicy`, `getBucketPolicy` and the bucket policy document. These are network I/O.
- The content of a presigned link is whatever the client returns. Its signature scheme belongs to the MinIO library.
- `Date.now()` is a parameter. Each file of a multiple upload gets its own clock reading.
- MinioService.UploadMultiple: the failure reported is the first failure in input order. `Promise.all` rejects with the first failure in time, which depends on scheduling.
- UploadService.UploadMultipleFiles: the same simplification of `Promise.all` as `MinioService.UploadMultiple`.
- StorageCommon.All: the combined calls are kept operation by operation. In the program the uploads interleave: every `putObject` is started before any presign. The model promises only the multiset of calls, not their order.
- UserService.GetAllUsers: the program returns the service's own array, so a caller can mutate the list later lookups see. The model's list is immutable.
- AuthService.ValidateUser: a rejected `findOne` call (a store failure) makes `validateUser` reject, not return `null`. The lookup oracle has no failure outcome.
- Not modelled as computations, because they are foreign libraries; they are oracle parameters instead:
  - bcrypt's `compare`;
  - JWT signing and verification;
  - the e-mail grammar of `@IsEmail`.
- The signing secret is configuration and does not appear.
- `usersService.findOne` and `usersService.create` are oracles. The user service they belong to is not part of this model; `src/user/user.service.ts` exports a different, in-memory `UserService`, which is modelled.
- Registration uniqueness and e-mail verification are not modelled. No code checks for a duplicate e-mail or issues, expires or consumes verification tokens. `src/mail/mail.service.ts` only sends a message.
- ClassValidator.Errors: messages are a set. The response's ordering of messages is internal to the library, and so is its grouping by property.
- String lengths follow the validator's own count (`ClassValidator.TextLength`): code points, less the variation selectors U+FE0E and U+FE0F. Dafny characters are Unicode scalar values, so a lone surrogate, which a JavaScript string may hold, is not representable.
- Numbers are integers. Floating point and `NaN` do not arise in the modelled logic.
- AuthService.ValidateUser: the stored password is handed to the compare oracle as a value. bcrypt's behaviour on non-string hashes belongs to the library.
- `RegisterDto` is modelled only as the acceptance condition it declares. The register route takes an untyped body, so nothing applies this class to requests.
- Not modelled, because they are framework wiring, library validators or database wrappers:
  - the controllers, modules and bootstrap;
  - the upload size and type pipes;
  - image processing (`src/common/services/file-upload.service.ts`);
  - the post service (a Prisma wrapper).
