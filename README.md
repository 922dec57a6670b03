# Course platform catalogue, modelled in Dafny

This project models the core of an online course platform written in Java.
`PlataformaCursos` keeps a `TreeMap` from an upper-cased category to the
`ArrayList` of its courses, in insertion order. A `Curso` is a course: a
name, normalised once by `capitalizarNombre`, a publication date and a level.

The modules are:

- `Wrappers`: `Option` and `Result`.
- `Secuencias`: small facts about slicing and appending sequences, used by the loops.
- `Texto`: the `java.lang.String` operations the code relies on. These are
  `trim`, `split` on one literal character (trailing empty pieces dropped),
  `indexOf` and an ASCII `toUpperCase`.
- `Orden`: `String.compareTo` as a strict order. A `TreeSet<String>` and the
  key set of a `TreeMap` are modelled as strictly increasing sequences, and
  `TreeSet.add` as sorted insertion.
- `Fechas`: `LocalDate` as a year, month and day. It covers the validity
  check of `LocalDate.of` and the ordering of `compareTo`.
- `Enteros`: `Integer.valueOf`, with its sign and its 32-bit range, and the
  decimal rendering it reads back.
- `Cursos`: the `Nivel` enum and the `Curso` class, with fields set once.
  - `capitalizarNombre` is a loop proved against the function
    `Capitalizacion`.
  - Lemmas state when it throws, what it produces character by character,
    and that it is idempotent.
- `Lineas`: the parsing of one input line, `categoria : nombre : d/m/a :
  nivel`, as pure functions. A round-trip lemma shows that a line written
  from a course's values parses back to those values. The fields may have
  blanks around them, and the level may be in any letter case.
- `Plataforma`: the `PlataformaCursos` class.
  - `plataforma` is a `map` from category to course list. `claves` holds
    its keys in `TreeMap` order.
  - `Valid()` says the keys are sorted, match the map and are upper case.
  - `addCurso`, `borrarCursosDe`, `cursoMasAntiguo`, `obtenerCurso` and one
    line of `leerDeFichero` are methods. They have the source's loops and
    are proved against value-level specifications: `Anadido`,
    `Conservados`/`Borrados`, `Aplanar`/`PrimeroMasAntiguo` and
    `ParsearLinea`.

Every exception the source can raise on a line becomes a `Fallo` value:

| `Fallo` | cause in the source |
|---|---|
| `SinSeparador` | `substring(0, -1)` |
| `FaltaCampo` | an index out of bounds |
| `NumeroInvalido` | `Integer.valueOf` |
| `FechaInvalida` | `LocalDate.of` |
| `NivelDesconocido` | `Nivel.valueOf` |
| `NombreInvalido` | `substring(0, 1)` on an empty word in `capitalizarNombre` |

### Where the documentation and the code differ

The model follows the code in these places:

- **`capitalizarNombre`.** The doc comment promises two things the code does
  not do (Curso.java:33-38):
  - that the rest of each word is lower-cased;
  - that there is no trailing space.

  The code (Curso.java:44-47) leaves the rest of each word as it is and
  writes a space after every word. `"wordpress PLugin development"` becomes
  `"Wordpress PLugin Development "`. The model does the same.
- **`cursoMasAntiguo`.** The code seeds the scan with a sentinel course
  dated today, named `" a "`, which is `"A "` once capitalised.
  - When no course is strictly older than today, the result is `"A "`.
    This includes the empty catalogue.
  - The model keeps that behaviour and states it.

## Model

| member | source | states |
|---|---|---|
| Plataforma.PlataformaCursos.constructor | PlataformaCursos.java:34-38 | the platform starts with no category |
| Plataforma.PlataformaCursos.AddCurso | PlataformaCursos.java:49-58 | the key is the upper-cased category. If present, the course is appended at the end of its list; otherwise the key gets the one-course list `[curso]` and is inserted into the sorted key sequence. Every other entry and key is unchanged, so the count of every spelling of the category grows by one or goes from -1 to 1, and every other count is unchanged |
| Plataforma.Anadido | PlataformaCursos.java:49-57 | the map after `addCurso`: the keys gain exactly `k`, `k` maps to the old list plus the course (or to `[curso]`), every other key keeps its list |
| Plataforma.PlataformaCursos.TotalCursosEn | PlataformaCursos.java:65-73 | the result is -1 exactly when the upper-cased category is absent, and otherwise the length of its list |
| Plataforma.PlataformaCursos.ObtenerCategorias | PlataformaCursos.java:156-161 | the result is strictly sorted, holds exactly the current keys (emptied categories included), and every element is upper case |
| Plataforma.PlataformaCursos.BorrarCursosDe | PlataformaCursos.java:171-186 | requires the upper-cased category to be a key. The key's list becomes the old list filtered to the other levels, in order; the key set and the other lists are unchanged. The result is a strictly sorted set whose elements are exactly the names of the removed courses |
| Plataforma.Particion | PlataformaCursos.java:177-183 | the kept and the removed courses together are the old list as a multiset, and their lengths add up to its length |
| Plataforma.NivelesSeparados | PlataformaCursos.java:179-181 | every kept course has another level, and every removed course has the given level |
| Plataforma.BorrarIdempotente | PlataformaCursos.java:177-183 | a second deletion with the same level keeps the whole list and removes nothing, so it returns the empty set |
| Plataforma.NombresBorradosAcotados | PlataformaCursos.java:172-185 | the returned set has no more names than courses were removed, and no more were removed than the list held |
| Plataforma.PlataformaCursos.CursoMasAntiguo | PlataformaCursos.java:193-217 | over all courses in key order and then list order: if some course is strictly older than `hoy`, the result is the name of the first course that no course predates; otherwise it is the sentinel name `"A "` |
| Plataforma.PlataformaCursos.EscanearCatalogo | PlataformaCursos.java:196-215 | the outer loop over the keys, starting from the sentinel, leaves the scan state that `FinEscaneo` reads for all courses of all keys |
| Plataforma.PlataformaCursos.EscanearLista | PlataformaCursos.java:206-213 | the inner loop over one list extends the scan state by that list's courses |
| Plataforma.PasoEscaneo | PlataformaCursos.java:209-212 | one comparison with a strict `<`: a strictly older course becomes the best; an equally old one does not, so the first one wins ties |
| Plataforma.FinEscaneo | PlataformaCursos.java:216 | the finished scan's best name is that of the first oldest course when one predates `hoy`, and the sentinel name otherwise |
| Plataforma.NombreCentinela | PlataformaCursos.java:199-200 | the sentinel name `" a "` is well spaced, and capitalising it gives `"A "` |
| Plataforma.PlataformaCursos.ObtenerCurso | PlataformaCursos.java:137-150 | fills the list of trimmed fields in a loop, then reads the date, then the level, then builds the course. It succeeds exactly when `DatosCurso` does, with the same capitalised name, date and level; otherwise it fails with the same `Fallo` |
| Plataforma.PlataformaCursos.LeerLinea | PlataformaCursos.java:117-123 | for one line: if `ParsearLinea` fails, the same `Fallo` is returned and the platform is unchanged; otherwise a course with the parsed values is added under the parsed category, as `AddCurso` does |
| Lineas.ParsearLinea | PlataformaCursos.java:118-121 | the line fails with `SinSeparador` exactly when its trimmed form has no ':'; a parsed category contains no ':' and is already trimmed |
| Lineas.ParsearBlancosFinales | PlataformaCursos.java:118 | the line is trimmed first, so blanks appended to a line with a non-blank do not change how it parses |
| Lineas.DatosCurso | PlataformaCursos.java:139-149 | on the trimmed fields: a success has at least three fields, the date the second field reads as, the level `Nivel.valueOf` gives for the upper-cased third field, and, as its name, the capitalisation of the first field. It fails with `NivelDesconocido` exactly when there are three fields, the date reads, and the upper-cased third field names no level. A failure is never `SinSeparador` |
| Lineas.FechaDeCampo | PlataformaCursos.java:145-147 | the parts are read as year `fecha[2]`, month `fecha[1]` and day `fecha[0]`. A success is a valid date; a failure is a missing part, a bad number or an invalid date |
| Lineas.FechaDeFormato | PlataformaCursos.java:145-147 | a valid date with a non-negative year, written day/month/year in decimal, reads back as itself |
| Lineas.NivelDeNombre | PlataformaCursos.java:149 | `Nivel.valueOf` reads back every level's constant name |
| Lineas.NivelSinMayusculas | PlataformaCursos.java:149 | a level token in any letter case is accepted as level `n` exactly when upper-casing it gives the name of `n` |
| Lineas.FechaRodeada | PlataformaCursos.java:142-147 | a date written day/month/year with blanks on either side has no ':' and, once trimmed, reads back as the date |
| Lineas.CortarCategoria | PlataformaCursos.java:118-121 | a line `categoria:resto` whose category has no ':' and whose rest ends in a non-blank parses to the trimmed category and the result of parsing the rest |
| Lineas.DatosDeDescripcion | PlataformaCursos.java:139-149 | a description `nombre:fecha:nivel` whose fields have no ':' parses as follows: the name is the capitalised name, the date is what the trimmed date field reads as, and the level is the one the trimmed and upper-cased level field names. Blanks may surround every field |
| Lineas.LecturaDeFormato | PlataformaCursos.java:118-149 | a whole line `categoria:nombre:fecha:nivel` whose fields have no ':' parses back to the trimmed category, the capitalised name, the date the trimmed date field reads as, and the level named by the trimmed, upper-cased level field. Blanks may surround every field, trailing ones included, and the level may be in any case (for example ` 3/12/2019 ` and `principiante `) |
| Cursos.Curso.constructor | Curso.java:24-30 | requires a well-spaced trimmed name (otherwise the source throws). Stores the capitalisation of the name, and stores the date and level unchanged |
| Cursos.Curso.CapitalizarNombre | Curso.java:40-49 | the loop returns `Capitalizacion(nombre)`, and `None` exactly where an empty word makes `substring(0, 1)` throw |
| Cursos.CapitalizacionFalla | Curso.java:42-45 | capitalisation fails exactly when the trimmed name is not well spaced: empty, or with two spaces in a row |
| Cursos.CapitalizacionPorCaracteres | Curso.java:43-47 | for a well-spaced trimmed name, the result upper-cases every character that starts a word, keeps all the others, and adds one trailing space. Its length is the trimmed length plus one, and it does not start with a blank |
| Cursos.CapitalizadasDeTrozos | Curso.java:43-47 | a well-spaced string splits into non-empty words, and capitalising them word by word equals capitalising it character by character plus a space |
| Cursos.CapitalizacionTrim | Curso.java:42 | capitalisation trims its argument first, so trimming it beforehand changes nothing |
| Cursos.CapitalizacionIdempotente | Curso.java:40-49 | capitalising a capitalised name changes nothing |
| Cursos.Curso.GetNombre | Curso.java:54-57 | returns the stored name |
| Cursos.Curso.GetNivel | Curso.java:62-65 | returns the stored level |
| Cursos.Curso.GetFecha | Curso.java:70-73 | returns the stored date |
| Texto.MayusculasIdempotente | PlataformaCursos.java:50-56 | upper-casing gives an upper-case string, leaves an upper-case string as it is, and is idempotent; this is why the second `toUpperCase` at line 56 changes nothing |
| Texto.IndiceDe | PlataformaCursos.java:119 | the result is -1 exactly when the character is absent; otherwise it is the first position holding it |
| Texto.TrimIdempotente | Curso.java:42 | trimming a trimmed string changes nothing |
| Texto.TrimRodeado | PlataformaCursos.java:142 | a field with only blanks before and after it trims to the field itself |
| Texto.TrimBlancosFinales | PlataformaCursos.java:118 | appending blanks to a string that has a non-blank does not change its trim |
| Texto.SplitSinVaciasFinales | PlataformaCursos.java:139 | splitting a string that does not end with the separator keeps every piece, empty inner ones included |
| Orden.InsertarOrdenada | PlataformaCursos.java:180 | `TreeSet.add` keeps the sequence strictly sorted and adds exactly the new element |
| Fechas.De | PlataformaCursos.java:147 | `LocalDate.of` succeeds exactly on a valid proleptic Gregorian date, which it returns unchanged |
| Enteros.ValorDeDecimal | PlataformaCursos.java:147 | `Integer.valueOf` reads back the decimal rendering of every non-negative 32-bit value |

## Left out

- File I/O. The `Scanner` over `/cursos.csv` in `leerDeFichero` is not modelled; `LeerLinea` models one iteration of its loop. In the source the first exception ends the whole read, and courses from earlier lines stay added. The model returns the `Fallo` of one line and leaves the platform unchanged for that line.
- Console and rendering:
  - `toString` of both classes, `escribir` and both `main` methods are not modelled. They only format and print.
  - `getFechaFormateada` is not modelled. It depends on `DateTimeFormatter` and on locale month names.
- `LocalDate.now()` is not modelled: `CursoMasAntiguo` takes today's date as the parameter `hoy`.
- `toUpperCase` is modelled on ASCII letters only. Unicode case mapping, which may change a string's length, is not modelled.
- `Integer.valueOf` accepts only ASCII digits in the model. Java also accepts other Unicode decimal digits.
- `String.compareTo` is modelled on `char` values. UTF-16 surrogate pairs are not modelled.
- The `Nivel` enum source is not part of this model. It is modelled as the three constants the code uses.
- In-place mutation and aliasing:
  - Each `ArrayList` is a sequence value inside the map, so an update reassigns the map entry.
  - Aliasing of those lists is not modelled. In the source no list escapes the map.
  - `borrarCursosDe` builds the kept list instead of removing through the iterator; the final list and its order are the same.
- `lineaCurso.trim()` at PlataformaCursos.java:138 discards its result, so the model does nothing for it.
- Cursos.Curso.constructor: requires a well-spaced trimmed name instead of modelling the exception. `ObtenerCurso` checks this condition with `CapitalizacionFalla` before construction and returns `NombreInvalido`.
- Plataforma.PlataformaCursos.BorrarCursosDe: requires the category to exist. The source dereferences a null list otherwise, and its comment assumes the category exists.
- Plataforma.PlataformaCursos.LeerLinea: its success case states that some course with the parsed values was added, not which object. The course is the one `ObtenerCurso` creates.
