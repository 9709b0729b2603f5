# Field input of the volleyball management services

A Dafny model of the console input layer of the eight `es.cheste.servicios.Gestion*` services
(players, matches, follows, opinions, users, statistics, participations and coaches), with
proofs about what each reader and form accepts.

Every service asks for a record one field at a time on the terminal. Each field has a retry
loop (`verificar*` / `validar*`): it reads a line, tests it with a regular expression, an enum
lookup, a date parser or `Integer.parseInt` and a range check, and either returns the value or
reads again. A form (`preguntarDatos*`) runs the readers in a fixed order, sometimes throws one
more line away, and builds the record. An update (`actualizar*`) reads the key first and then
overwrites the key typed in the form with it. `GestionUsuario` also keeps, in the field
`correosList`, the e-mail addresses entered in the session, and rejects a repeated one.

How the model is built:

- **The terminal** is a finite `seq<string>` of lines and a cursor `pos`. A reader returns an
  `Outcome`:
  - `Accepted(value, next)`, where `next` is the cursor after the last line read;
  - `Escaped(failure)`, for a `NumberFormatException` or a `NullPointerException` the code does not catch;
  - `Exhausted`, when the lines run out (the `NoSuchElementException` of `nextLine`).
- **Module `Console`** holds the two loop shapes, each once as a reference function and once
  as an imperative `while` loop proved equal to it:
  - `FirstDecided` / `ReadUntil` serve the text, enum, date, e-mail and password fields.
  - `IntRun` / `ReadInt` serve the integer fields. An `IntRule` records four things: the
    minimum; the maximum, if any; what an empty line does (ask again, or return the loop's
    variable as it stands); and what a non-number does (ask again, ask again after throwing one
    more line away, or escape because the catch names the wrong exception).
  - `Parsed` names the lines an integer loop actually parses: after a non-number, a catch that
    throws one more line away skips the following line. `ParsedReader` and `IntRunValue` state
    every catching integer reader over those lines.
- **Modules `Regex` and `Patterns`** give the regular expressions of the services as a small
  regex syntax tree with a matching relation. They prove each one equivalent to a direct
  predicate on characters: capitalised words, letters-and-spaces words, the e-mail address and
  the password lookaheads.
- **Modules `JavaInt` and `Enums`** model `Integer.parseInt` (optional sign, ASCII digits,
  32-bit range) and the enums' `valueOf`. Module `Fields` holds the per-field acceptance tests.
- **One module per service** holds:
  - the record as a datatype;
  - each reader as a method with its specification;
  - the form as a function, plus a method that runs the readers and is proved equal to it;
  - the update;
  - a round-trip lemma: typing the fields of any valid record yields exactly that record.
- **`GestionUsuario`** is a class whose field `correosList` is appended by `VerificarCorreo`.
  Its invariant `Valid()` says that every entry was accepted against the entries before it, so
  the list never holds a repeated or malformed address.
- **Dates.** `java.time` parsing of `dd-MM-yyyy` is a parameter `parse: string -> Option<LocalDate>`.

## Model

| member | source | states |
|---|---|---|
| Chars.UpperChar | src/main/java/es/cheste/servicios/GestionJugadora.java:237 | a lower-case ASCII letter becomes the letter 32 code points below; every other character is kept; the result is never a lower-case ASCII letter |
| Chars.ToUpper | src/main/java/es/cheste/servicios/GestionJugadora.java:237 | upper-casing keeps the length of the line |
| Chars.ToUpperFixed | src/main/java/es/cheste/servicios/GestionJugadora.java:237 | upper-casing leaves a line unchanged exactly when it has no lower-case ASCII letter |
| Chars.ToUpperIdempotent | src/main/java/es/cheste/servicios/GestionJugadora.java:237 | upper-casing twice equals upper-casing once, and the result has no lower-case ASCII letter |
| Regex.AtLeastClass | src/main/java/es/cheste/servicios/GestionUsuario.java:241 | `c{n,}` over a character class matches exactly the strings of length at least n made of that class |
| JavaInt.ParseInt | src/main/java/es/cheste/servicios/GestionJugadora.java:305 | `Integer.parseInt` (optional sign, ASCII digits) only ever yields a value in the 32-bit range |
| JavaInt.ParseIntToString | src/main/java/es/cheste/servicios/GestionJugadora.java:305 | every 32-bit int, written in decimal, parses back to itself |
| JavaInt.ParseIntRejects | src/main/java/es/cheste/servicios/GestionJugadora.java:305 | the empty line, a lone sign, surrounding spaces and letters are not numbers |
| JavaInt.ParseIntLeading | src/main/java/es/cheste/servicios/GestionJugadora.java:305 | a leading `+` and leading zeros are accepted |
| JavaInt.ParseIntLimits | src/main/java/es/cheste/servicios/GestionJugadora.java:305 | -2147483648 parses and 2147483648 does not |
| Enums.PosicionOf | src/main/java/es/cheste/enums/PosicionJugadora.java:10-26 | `PosicionJugadora.valueOf`: a name is found exactly when some constant carries it, and the constant found carries it |
| Enums.EstadoOf | src/main/java/es/cheste/enums/EstadoJugadora.java:8-31 | `EstadoJugadora.valueOf`: a name is found exactly when some constant carries it, and the constant found carries it |
| Enums.FrecuenciaOf | src/main/java/es/cheste/enums/FrecuenciaInteraccion.java:8-17 | `FrecuenciaInteraccion.valueOf`: a name is found exactly when some constant carries it, and the constant found carries it |
| Enums.ValueOfName | src/main/java/es/cheste/enums/PosicionJugadora.java:10-26 | `valueOf(c.name())` is `c` for every constant of the three enums |
| Enums.PosicionNameUpper | src/main/java/es/cheste/enums/PosicionJugadora.java:10-26 | every position name is already upper case |
| Enums.EstadoNameUpper | src/main/java/es/cheste/enums/EstadoJugadora.java:8-31 | every state name is already upper case |
| Enums.FrecuenciaNameUpper | src/main/java/es/cheste/enums/FrecuenciaInteraccion.java:8-17 | every frequency name is already upper case |
| Patterns.NameMatch | src/main/java/es/cheste/servicios/GestionJugadora.java:210 | the capitalised-words pattern matches a line exactly when it is A-Z-initial ASCII-letter words separated by single spaces |
| Patterns.LettersMatch | src/main/java/es/cheste/servicios/GestionJugadora.java:265 | the letters-and-spaces pattern matches a line exactly when it is words of ASCII letters and ÁÉÍÓÚáéíóúÑñ separated by single spaces |
| Patterns.DomainMatch | src/main/java/es/cheste/servicios/GestionUsuario.java:241 | `[a-zA-Z0-9.-]+\.[a-zA-Z]{2,}` matches exactly a non-empty run of domain characters, a dot, and at least two ASCII letters after the last dot |
| Patterns.EmailMatch | src/main/java/es/cheste/servicios/GestionUsuario.java:241 | the e-mail pattern matches exactly three or more characters, `@`, then such a domain |
| Patterns.EmailLength | src/main/java/es/cheste/servicios/GestionUsuario.java:241 | every string the e-mail pattern matches has at least 8 characters |
| Patterns.ContainsMatch | src/main/java/es/cheste/servicios/GestionUsuario.java:283 | the lookahead `(?=.*[x])` holds exactly when the line contains a character of the class |
| Patterns.PasswordMatch | src/main/java/es/cheste/servicios/GestionUsuario.java:283 | the password pattern holds exactly when the line has 8 or more characters, a lower-case and an upper-case ASCII letter and one of the listed symbols |
| Fields.NameCheck | src/main/java/es/cheste/servicios/GestionJugadora.java:208-223 | an accepted name is the line itself, of length at least 3 |
| Fields.NameCheckMatches | src/main/java/es/cheste/servicios/GestionJugadora.java:208-223 | a line is accepted exactly when its length is at least 3 and the capitalised-words pattern matches it |
| Fields.NameCheckAccepts | src/main/java/es/cheste/servicios/GestionJugadora.java:208-223 | "Ana Gil" is accepted |
| Fields.NameCheckAcceptsInitial | src/main/java/es/cheste/servicios/GestionPartido.java:249-264 | "Club A" is accepted: a one-letter word is allowed |
| Fields.NameCheckRejects | src/main/java/es/cheste/servicios/GestionJugadora.java:208-223 | "ana", "Al", "Ana  Gil" and "Ana " are rejected |
| Fields.LettersCheck | src/main/java/es/cheste/servicios/GestionPartido.java:321-335 | an accepted result line is the line itself and is not empty |
| Fields.OptionalLettersCheck | src/main/java/es/cheste/servicios/GestionJugadora.java:263-281 | an empty nationality or comment is accepted as ""; anything accepted is the line itself |
| Fields.LettersCheckMatches | src/main/java/es/cheste/servicios/GestionJugadora.java:263-281 | with and without the empty short-circuit, acceptance is exactly the letters-and-spaces pattern |
| Fields.LettersCheckExamples | src/main/java/es/cheste/servicios/GestionPartido.java:321-335 | a score such as "Gana 3" and the empty line are rejected as a result; "Perú" is accepted |
| Fields.PosicionCheck | src/main/java/es/cheste/servicios/GestionJugadora.java:232-250 | an accepted position is the upper-cased line and names a constant |
| Fields.PosicionCheckMeans | src/main/java/es/cheste/servicios/GestionJugadora.java:232-250 | a line is accepted exactly when its upper-cased form is the name of a position |
| Fields.PosicionCheckLowerCase | src/main/java/es/cheste/servicios/GestionJugadora.java:232-250 | "libero" is accepted as "LIBERO" |
| Fields.EstadoCheck | src/main/java/es/cheste/servicios/GestionJuega.java:246-264 | an accepted state is the upper-cased line and names a constant |
| Fields.EstadoCheckMeans | src/main/java/es/cheste/servicios/GestionJuega.java:246-264 | a line is accepted exactly when its upper-cased form is the name of a state |
| Fields.FrecuenciaCheck | src/main/java/es/cheste/servicios/GestionSigue.java:244-268 | an accepted frequency is the upper-cased, non-empty line and names a constant |
| Fields.FrecuenciaCheckMeans | src/main/java/es/cheste/servicios/GestionSigue.java:244-268 | a line is accepted exactly when its upper-cased form names a frequency |
| Fields.FrecuenciaCheckLowerCase | src/main/java/es/cheste/servicios/GestionSigue.java:244-268 | "semanal" is accepted as "SEMANAL" |
| Fields.EnumCheckRejects | src/main/java/es/cheste/servicios/GestionJuega.java:246-264 | the empty state is rejected, and "líbero" names no position |
| Fields.DateCheck | src/main/java/es/cheste/servicios/GestionPartido.java:210-233 | an empty date line is rejected; any other line is accepted exactly when the dd-MM-yyyy parser accepts it, as the parsed date |
| Fields.PasswordCheck | src/main/java/es/cheste/servicios/GestionUsuario.java:281-296 | an accepted password is the line itself, of length at least 8 |
| Fields.PasswordCheckMatches | src/main/java/es/cheste/servicios/GestionUsuario.java:281-296 | a line is accepted exactly when it has 8 or more characters and the password pattern holds |
| Fields.PasswordCheckRejectsLower | src/main/java/es/cheste/servicios/GestionUsuario.java:281-296 | "abcdefgh" is rejected |
| Fields.PasswordCheckRejectsUpper | src/main/java/es/cheste/servicios/GestionUsuario.java:281-296 | "ABCDEFG@" is rejected: the pattern also demands a lower-case letter |
| Fields.PasswordCheckAccepts | src/main/java/es/cheste/servicios/GestionUsuario.java:281-296 | "Abcdef1@" is accepted |
| Console.Discard | src/main/java/es/cheste/servicios/GestionJugadora.java:437 | the extra `nextLine` succeeds exactly when a line is left and consumes exactly one line |
| Console.FirstDecided | src/main/java/es/cheste/servicios/GestionJugadora.java:208-223 | a text retry loop never escapes; it accepts the value the check gives for the last line it read |
| Console.FirstDecidedIsFirst | src/main/java/es/cheste/servicios/GestionJugadora.java:208-223 | every line before the accepted one was rejected, and the loop runs out of input exactly when every remaining line is rejected |
| Console.FirstDecidedHere | src/main/java/es/cheste/servicios/GestionJugadora.java:208-223 | a loop whose first line is accepted returns it after reading one line |
| Console.ReadUntil | src/main/java/es/cheste/servicios/GestionJugadora.java:208-223 | the imperative do/while retry loop returns what the reference definition says |
| Console.IntRun | src/main/java/es/cheste/servicios/GestionJugadora.java:291-321 | an integer reader escapes only when it lets NumberFormatException through; what it returns is in range and parsed from the last line, unless an empty line returned the loop variable |
| Console.ReadInt | src/main/java/es/cheste/servicios/GestionJugadora.java:291-321 | the imperative loop over the flag and the reassigned local returns what the reference definition says |
| Console.IntRunAccepts | src/main/java/es/cheste/servicios/GestionJugadora.java:291-321 | a line holding an in-range number is accepted at once |
| Console.OptionalAnswerRead | src/main/java/es/cheste/servicios/GestionPartido.java:275-304 | for an optional id, an empty first line returns 0 and a positive number is returned as typed |
| Console.Unbox | src/main/java/es/cheste/servicios/GestionUsuario.java:359 | auto-unboxing a null `Integer` throws NullPointerException; every other outcome is passed on |
| Console.IntFieldNeverNull | src/main/java/es/cheste/servicios/GestionJugadora.java:291-321 | a reader whose local starts at `int 0` never yields null |
| Console.ParsedReader | src/main/java/es/cheste/servicios/GestionPartido.java:345-376 | for a reader that catches NumberFormatException, with or without the extra `nextLine` that throws the following line away: the lines it parses are the first one, the next after an empty or out-of-range line and, after a non-number, the next one or (with the extra `nextLine`) the one after it; it never escapes, ends on the first parsed line that is an in-range number (or, for an optional field, empty), returns the number typed there, and runs out of input exactly when no parsed line stops it |
| Console.FirstStopDecides | src/main/java/es/cheste/servicios/GestionPartido.java:275-304 | conversely, the first parsed line that stops the reader is the line it ends on |
| Console.IntRunValue | src/main/java/es/cheste/servicios/GestionPartido.java:275-304 | a value returned on an empty line is the number on the last parsed line before it (in range or not), or the initial value when no parsed line holds a number |
| Console.IntRunIsFirstDecided | src/main/java/es/cheste/servicios/GestionJugadora.java:291-321 | a reader that re-prompts on empty input and loses no line is the first line on which it decides |
| Console.IntRunIgnoresCurrent | src/main/java/es/cheste/servicios/GestionJugadora.java:291-321 | when an empty line re-prompts, the local's initial value cannot reach the result |
| Console.RetryReader | src/main/java/es/cheste/servicios/GestionJugadora.java:291-321 | a reader that re-prompts on empty and non-numeric lines returns the first acceptable line and runs out exactly when none is acceptable |
| Console.WrongCatchReader | src/main/java/es/cheste/servicios/GestionJugadora.java:374-404 | a reader whose catch misses NumberFormatException escapes exactly when a non-number comes before any acceptable line |
| GestionJugadora.ValidJugadoraMeans | src/main/java/es/cheste/servicios/GestionJugadora.java:208-404 | a player the form can return has names per the capitalised-words rule, a position name, an optional nationality, age 16..50, jersey 1..99 and a positive 32-bit coach id |
| GestionJugadora.VerificarNombreApellidoNomEquipo | src/main/java/es/cheste/servicios/GestionJugadora.java:208-223 | the first line of length at least 3 matching the capitalised-words pattern is returned unchanged |
| GestionJugadora.VerificarPosicion | src/main/java/es/cheste/servicios/GestionJugadora.java:232-250 | the first line whose upper-cased form names a position is returned upper-cased |
| GestionJugadora.VerificarNacionalidad | src/main/java/es/cheste/servicios/GestionJugadora.java:263-281 | the first line that is empty or matches the letters pattern is returned unchanged |
| GestionJugadora.VerificarEdad | src/main/java/es/cheste/servicios/GestionJugadora.java:291-321 | the first line parsing to 16..50 is the age; every line before it was not; it never escapes |
| GestionJugadora.VerificarDorsal | src/main/java/es/cheste/servicios/GestionJugadora.java:331-361 | the first line parsing to 1..99 is the jersey; every line before it was not; it never escapes |
| GestionJugadora.VerificarIdEntrenador | src/main/java/es/cheste/servicios/GestionJugadora.java:374-404 | an empty line re-prompts; a positive number is accepted; a non-number before that escapes with NumberFormatException |
| GestionJugadora.EdadLimits | src/main/java/es/cheste/servicios/GestionJugadora.java:291-321 | 15 and 51 are asked again, as are an empty line and a non-number, one line each; 16 and 50 are taken |
| GestionJugadora.DatosJugadora | src/main/java/es/cheste/servicios/GestionJugadora.java:413-440 | a completed form holds values each reader accepts, id 0, and reads at least nine lines; only NumberFormatException escapes |
| GestionJugadora.PreguntarDatosJugadora | src/main/java/es/cheste/servicios/GestionJugadora.java:413-440 | running the eight readers in order and discarding one line gives the form's reference outcome |
| GestionJugadora.DatosJugadoraOfAnswers | src/main/java/es/cheste/servicios/GestionJugadora.java:413-440 | typing the fields of any valid player, plus one line, yields exactly that player after nine lines |
| GestionJugadora.DatosJugadoraNeedsTrailingLine | src/main/java/es/cheste/servicios/GestionJugadora.java:437 | the eight answers alone do not complete the form |
| GestionJugadora.ActualizarJugadora | src/main/java/es/cheste/servicios/GestionJugadora.java:552-565 | the update's record is the form's with the id read first; nothing else changes |
| GestionPartido.VerificarFecha | src/main/java/es/cheste/servicios/GestionPartido.java:210-233 | the first non-empty line the dd-MM-yyyy parser accepts is the date |
| GestionPartido.VerificarNombreEquipo | src/main/java/es/cheste/servicios/GestionPartido.java:249-264 | the first line of length at least 3 matching the capitalised-words pattern is the team |
| GestionPartido.VerificarIdEntrenador | src/main/java/es/cheste/servicios/GestionPartido.java:275-304 | never escapes; it ends on the first parsed line (a non-number also throws the next line away) that is empty or a positive number, and runs out exactly when there is none; a number line gives that number, an empty line the last number parsed before it or 0 |
| GestionPartido.VerificarResultado | src/main/java/es/cheste/servicios/GestionPartido.java:321-335 | the first non-empty line matching the letters pattern is the result |
| GestionPartido.VerificarDuracion | src/main/java/es/cheste/servicios/GestionPartido.java:345-376 | never escapes; the duration is the first parsed line (a non-number also throws the next line away) holding a positive number, and it runs out exactly when no parsed line does |
| GestionPartido.DatosPartido | src/main/java/es/cheste/servicios/GestionPartido.java:386-410 | a completed form holds accepted values, id 0, a date the parser read from a non-empty line it consumed, reads at least eight lines and never escapes |
| GestionPartido.PreguntarDatosPartido | src/main/java/es/cheste/servicios/GestionPartido.java:386-410 | running the readers in the form's order and discarding one line gives the reference outcome |
| GestionPartido.DatosPartidoOfAnswers | src/main/java/es/cheste/servicios/GestionPartido.java:386-410 | typing any valid match with coach ids 0 or positive, plus one line, yields exactly it after eight lines |
| GestionPartido.StaleCoachId | src/main/java/es/cheste/servicios/GestionPartido.java:278-290 | after a rejected -5, an empty line returns -5; an empty first line returns 0 |
| GestionPartido.BadNumberSwallowsLine | src/main/java/es/cheste/servicios/GestionPartido.java:296-299 | a non-number costs its own line and the next one, for both the coach id and the duration |
| GestionPartido.ScoreIsNotResult | src/main/java/es/cheste/servicios/GestionPartido.java:316-335 | a score such as "3 - 1" is not an acceptable result |
| GestionPartido.ActualizarPartido | src/main/java/es/cheste/servicios/GestionPartido.java:489-502 | the update's record is the form's with the id read first; nothing else changes |
| GestionSigue.ValidarId | src/main/java/es/cheste/servicios/GestionSigue.java:174-204 | an empty line re-prompts; a positive number is accepted; a non-number before that escapes with NumberFormatException |
| GestionSigue.ValidarFecha | src/main/java/es/cheste/servicios/GestionSigue.java:212-235 | the first non-empty line the dd-MM-yyyy parser accepts is the date |
| GestionSigue.VerificarFrecuenciaInteraccion | src/main/java/es/cheste/servicios/GestionSigue.java:244-268 | the first line whose upper-cased form names a frequency is returned upper-cased |
| GestionSigue.VerificarObservacion | src/main/java/es/cheste/servicios/GestionSigue.java:280-294 | the first non-empty line matching the letters pattern is the note |
| GestionSigue.DatosSigue | src/main/java/es/cheste/servicios/GestionSigue.java:303-321 | a completed form holds accepted values, a follow date the parser read from a non-empty line it consumed, and reads at least six lines; only NumberFormatException escapes |
| GestionSigue.PreguntarDatosSigue | src/main/java/es/cheste/servicios/GestionSigue.java:303-321 | running the readers in the form's order and discarding one line gives the reference outcome |
| GestionSigue.DatosSigueOfAnswers | src/main/java/es/cheste/servicios/GestionSigue.java:303-321 | typing any valid follow, plus one line, yields exactly it after six lines |
| GestionSigue.NonNumberIdEscapes | src/main/java/es/cheste/servicios/GestionSigue.java:198 | a non-number as the first id escapes the form, even after an empty line and a 0 |
| GestionSigue.Clave | src/main/java/es/cheste/servicios/GestionSigue.java:403-406 | the key read first has two positive 32-bit ids and takes at least three lines |
| GestionSigue.Actualizacion | src/main/java/es/cheste/servicios/GestionSigue.java:403-421 | the update's record takes the key from the triple read first and the frequency and note from the form |
| GestionSigue.ActualizarSigue | src/main/java/es/cheste/servicios/GestionSigue.java:403-421 | the imperative update returns the reference outcome |
| GestionSigue.ClaveOfAnswers | src/main/java/es/cheste/servicios/GestionSigue.java:403-406 | typing a key's fields reads exactly that key |
| GestionSigue.ActualizacionOfAnswers | src/main/java/es/cheste/servicios/GestionSigue.java:403-421 | a key followed by the answers of a valid follow stores that follow under the first key; the key typed in the form is lost |
| GestionOpinion.VerificarIds | src/main/java/es/cheste/servicios/GestionOpinion.java:204-233 | never escapes; it ends on the first parsed line (a non-number also throws the next line away) that is empty or a positive number, and runs out exactly when there is none; a number line gives that number, an empty line the last number parsed before it or 0 |
| GestionOpinion.VerificarPuntuacion | src/main/java/es/cheste/servicios/GestionOpinion.java:244-275 | never escapes; the score is the first parsed line (a non-number also throws the next line away) holding 1..10, and it runs out exactly when no parsed line does |
| GestionOpinion.VerificarComentario | src/main/java/es/cheste/servicios/GestionOpinion.java:287-305 | the first line that is empty or matches the letters pattern is the comment |
| GestionOpinion.DatosOpinion | src/main/java/es/cheste/servicios/GestionOpinion.java:314-332 | a completed form holds accepted values, id 0, reads at least six lines and never escapes |
| GestionOpinion.PreguntarDatosOpinion | src/main/java/es/cheste/servicios/GestionOpinion.java:314-332 | running the readers in the form's order and discarding one line gives the reference outcome |
| GestionOpinion.DatosOpinionOfAnswers | src/main/java/es/cheste/servicios/GestionOpinion.java:314-332 | typing any valid opinion with ids 0 or positive, plus one line, yields exactly it after six lines |
| GestionOpinion.DatosOpinionMinimal | src/main/java/es/cheste/servicios/GestionOpinion.java:204-305 | leaving every optional field empty gives an opinion with ids 0 and an empty comment |
| GestionOpinion.PuntuacionOutOfRange | src/main/java/es/cheste/servicios/GestionOpinion.java:244-275 | 11 is asked again and 10 taken; a lone 0 never completes |
| GestionOpinion.ActualizarOpinion | src/main/java/es/cheste/servicios/GestionOpinion.java:444-457 | the update's record is the form's with the id read first; nothing else changes |
| GestionUsuario.CorreoCheck | src/main/java/es/cheste/servicios/GestionUsuario.java:239-265 | an empty line is returned at once; an address already in the list is rejected; an accepted address is the line itself |
| GestionUsuario.CorreoCheckMeans | src/main/java/es/cheste/servicios/GestionUsuario.java:241-260 | a non-empty line is accepted exactly when the e-mail pattern matches it and it is not in the list |
| GestionUsuario.CorreoCheckLength | src/main/java/es/cheste/servicios/GestionUsuario.java:241 | every accepted non-empty address has at least 8 characters |
| GestionUsuario.Registrar | src/main/java/es/cheste/servicios/GestionUsuario.java:246-262 | an empty address leaves the list alone; any other accepted address is appended |
| GestionUsuario.RegistrarKeepsRegistered | src/main/java/es/cheste/servicios/GestionUsuario.java:250-262 | appending an accepted address keeps every entry accepted against the entries before it |
| GestionUsuario.RegisteredMeans | src/main/java/es/cheste/servicios/GestionUsuario.java:250-262 | such a list has no repeated address, and each entry matches the e-mail pattern and has at least 8 characters |
| GestionUsuario.DatosUsuario | src/main/java/es/cheste/servicios/GestionUsuario.java:345-363 | a completed form holds accepted values and id 0, its address was not in the list, and the list gains exactly that address; only NullPointerException escapes |
| GestionUsuario.DatosUsuarioKeepsRegistered | src/main/java/es/cheste/servicios/GestionUsuario.java:345-363 | the form keeps the list free of repeats, whatever is typed |
| GestionUsuario.DatosUsuarioOfAnswers | src/main/java/es/cheste/servicios/GestionUsuario.java:345-363 | typing any valid user with a positive player id and a new address, plus one line, yields exactly it and records its address |
| GestionUsuario.DatosUsuarioNullId | src/main/java/es/cheste/servicios/GestionUsuario.java:359 | an empty first player id makes the form fail with NullPointerException, after the address was already recorded |
| GestionUsuario.StaleIdJugadora | src/main/java/es/cheste/servicios/GestionUsuario.java:307-336 | after a rejected -3 an empty line returns -3; a non-number costs a second line, and an empty line after it returns null |
| GestionUsuario.GestionUsuario.constructor | src/main/java/es/cheste/servicios/GestionUsuario.java:38-41 | a new service starts with an empty address list |
| GestionUsuario.GestionUsuario.FreshSessionAccepts | src/main/java/es/cheste/servicios/GestionUsuario.java:39 | in a fresh session, before any address was typed, an address is rejected only for failing the pattern; no seeded address is in the list |
| GestionUsuario.GestionUsuario.VerificarNombreApellido | src/main/java/es/cheste/servicios/GestionUsuario.java:206-221 | the first line of length at least 3 matching the capitalised-words pattern is returned unchanged |
| GestionUsuario.GestionUsuario.VerificarCorreo | src/main/java/es/cheste/servicios/GestionUsuario.java:239-265 | the loop returns the first accepted line against the list as it was, and the list is appended with that address exactly when it is accepted and non-empty |
| GestionUsuario.GestionUsuario.VerificarContrasenya | src/main/java/es/cheste/servicios/GestionUsuario.java:281-296 | the first line satisfying the password pattern is returned unchanged |
| GestionUsuario.GestionUsuario.VerificarIdJugadora | src/main/java/es/cheste/servicios/GestionUsuario.java:307-336 | never escapes; it ends on the first parsed line (a non-number also throws the next line away) that is empty or a positive number, and runs out exactly when there is none; a number line gives that number, an empty line the last number parsed before it or null |
| GestionUsuario.GestionUsuario.PreguntarDatosUsuario | src/main/java/es/cheste/servicios/GestionUsuario.java:345-363 | the form's outcome and the new list are those of the reference definition |
| GestionUsuario.GestionUsuario.ActualizarUsuario | src/main/java/es/cheste/servicios/GestionUsuario.java:442-455 | the update's record is the form's with the id read first; the list changes as in the form |
| GestionEstadistica.VerificarIds | src/main/java/es/cheste/servicios/GestionEstadistica.java:201-230 | never escapes; it ends on the first parsed line (a non-number also throws the next line away) that is empty or a positive number, and runs out exactly when there is none; a number line gives that number, an empty line the last number parsed before it or 0 |
| GestionEstadistica.VerificarRendimiento | src/main/java/es/cheste/servicios/GestionEstadistica.java:242-272 | the first line parsing to 0 or more is the count; every line before it was not; it never escapes |
| GestionEstadistica.DatosEstadistica | src/main/java/es/cheste/servicios/GestionEstadistica.java:282-305 | a completed form holds accepted values, counts at least 0, id 0, reads at least seven lines and never escapes |
| GestionEstadistica.PreguntarDatosEstadistica | src/main/java/es/cheste/servicios/GestionEstadistica.java:282-305 | running the seven readers in order, with no discarded line, gives the reference outcome |
| GestionEstadistica.DatosEstadisticaOfAnswers | src/main/java/es/cheste/servicios/GestionEstadistica.java:282-305 | typing any valid statistic with ids 0 or positive yields exactly it after seven lines |
| GestionEstadistica.RendimientoRetries | src/main/java/es/cheste/servicios/GestionEstadistica.java:242-272 | a negative count and a non-number each cost one line, with no extra discard |
| GestionEstadistica.ActualizarEstadistica | src/main/java/es/cheste/servicios/GestionEstadistica.java:384-397 | the update's record is the form's with the id read first; nothing else changes |
| GestionJuega.ValidarId | src/main/java/es/cheste/servicios/GestionJuega.java:165-195 | an empty line re-prompts; a positive number is accepted; a non-number before that escapes with NumberFormatException |
| GestionJuega.VerificarMinutos | src/main/java/es/cheste/servicios/GestionJuega.java:206-237 | never escapes; the minute is the first parsed line (a non-number also throws the next line away) holding 0 or more, and it runs out exactly when no parsed line does |
| GestionJuega.VerificarEstado | src/main/java/es/cheste/servicios/GestionJuega.java:246-264 | the first line whose upper-cased form names a state is returned upper-cased |
| GestionJuega.DatosJuega | src/main/java/es/cheste/servicios/GestionJuega.java:273-291 | a completed form holds accepted values, reads at least six lines; only NumberFormatException escapes |
| GestionJuega.PreguntarDatosJuega | src/main/java/es/cheste/servicios/GestionJuega.java:273-291 | running the readers in the form's order and discarding one line gives the reference outcome |
| GestionJuega.DatosJuegaOfAnswers | src/main/java/es/cheste/servicios/GestionJuega.java:273-291 | typing any valid participation, plus one line, yields exactly it after six lines |
| GestionJuega.SalidaAntesDeEntrada | src/main/java/es/cheste/servicios/GestionJuega.java:280-284 | an exit at minute 10 after an entry at minute 90 is accepted |
| GestionJuega.Clave | src/main/java/es/cheste/servicios/GestionJuega.java:371-373 | the key read first has two positive 32-bit ids and takes at least two lines |
| GestionJuega.Actualizacion | src/main/java/es/cheste/servicios/GestionJuega.java:371-386 | the update's record takes the key read first and the minutes and state from the form |
| GestionJuega.ActualizarJuega | src/main/java/es/cheste/servicios/GestionJuega.java:371-386 | the imperative update returns the reference outcome |
| GestionJuega.ClaveOfAnswers | src/main/java/es/cheste/servicios/GestionJuega.java:371-373 | typing a key's fields reads exactly that key |
| GestionJuega.ActualizacionOfAnswers | src/main/java/es/cheste/servicios/GestionJuega.java:371-386 | a key followed by the answers of a valid participation stores it under the first key; the key typed in the form is lost |
| GestionEntrenador.VerificarNombreApellido | src/main/java/es/cheste/servicios/GestionEntrenador.java:199-214 | the first line of length at least 3 matching the capitalised-words pattern is returned unchanged |
| GestionEntrenador.VerificarNacionalidad | src/main/java/es/cheste/servicios/GestionEntrenador.java:227-245 | the first line that is empty or matches the letters pattern is returned unchanged |
| GestionEntrenador.VerificarExperiencia | src/main/java/es/cheste/servicios/GestionEntrenador.java:255-285 | the first line parsing to a positive number is the experience; every line before it was not; it never escapes |
| GestionEntrenador.DatosEntrenador | src/main/java/es/cheste/servicios/GestionEntrenador.java:294-308 | a completed form holds accepted values, id 0, reads at least four lines and never escapes |
| GestionEntrenador.PreguntarDatosEntrenador | src/main/java/es/cheste/servicios/GestionEntrenador.java:294-308 | running the four readers in order, with no discarded line, gives the reference outcome |
| GestionEntrenador.DatosEntrenadorOfAnswers | src/main/java/es/cheste/servicios/GestionEntrenador.java:294-308 | typing any valid coach yields exactly it after four lines |
| GestionEntrenador.ExperienciaRetries | src/main/java/es/cheste/servicios/GestionEntrenador.java:255-285 | 0, a non-number and an empty line each cost one line |
| GestionEntrenador.ActualizarEntrenador | src/main/java/es/cheste/servicios/GestionEntrenador.java:387-400 | the update's record is the form's with the id read first; nothing else changes |

## Left out

- The DAO classes, the database and its constraints (for example a unique e-mail column): the model ends where a record is handed to the DAO.
- `crearTabla`, `insertarDatosIniciales`, the menus, `leerOpcion` and `Main`: table set-up, seed data and navigation. The seeded users' addresses are never put in `correosList`, which `FreshSessionAccepts` reflects.
- The `nextInt`-based `validarId*` readers of GestionJugadora, GestionPartido, GestionOpinion, GestionUsuario, GestionEstadistica and GestionEntrenador: their behaviour rests on Scanner token rules. The updates take the id they read as a parameter `id`.
- `calcularRankingJugadoras`: it calls a stored procedure whose body is not part of this model.
- Console prompts and Log4j logging: they change nothing the readers return.
- Several Scanners sharing `System.in`: the model has one stream of lines.
- `java.time` parsing: it is a parameter, so no claim depends on how dates are resolved.
- `Integer.parseInt` of non-ASCII Unicode digits: only ASCII digits are numbers here.
- `String.toUpperCase` beyond ASCII: only `a`–`z` are upper-cased, so the special mappings of the default locale (for example of `ß` or accented letters) are not modelled.
- The Lombok setters of the updates: they are record updates on datatypes.
- `GestionOpinion.DatosOpinionOfAnswers`, `GestionEstadistica.DatosEstadisticaOfAnswers` and `GestionPartido.DatosPartidoOfAnswers` cover ids of 0 or more only. A negative id is reached only by typing it and then an empty line, which `GestionPartido.StaleCoachId` and `GestionUsuario.StaleIdJugadora` show.
