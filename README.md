# DCWS4 channelling resources in Dafny

This project models the three in-memory REST resources of the DCWS4 doctor-channelling service: doctors, appointments and hospitals. Each resource keeps an ordered list of records and offers these operations:

- **create**: the server assigns the next free id of the form `doc001`, `app001`, `hos001` and appends the record (answers 201).
- **update**: renames the first record whose id equals the path id ignoring case (200), or answers 404.
- **delete**: removes that record (200), or answers 404.
- **lookups**: by id, and the filtered listings (doctors by specialization or last-name prefix, doctors by hospital substring, appointments by patient-name substring and by doctor). Each has a plain-text and a structured (JSON) variant.

Module layout:

- `Common` holds the response codes and the fixed messages.
- `CaseFold` holds ASCII `toUpperCase`, `equalsIgnoreCase`, `startsWith` and `contains`, and the three matching policies built from them.
- `Ids` holds the `DecimalFormat("xxx000")` formatting of ids and the case-insensitive first-match lookup. It also holds the linear probe for the next free id and its termination measure, and the parse-back of an id into its number.
- `Records` holds the selection of matching records in list order, the text rendering ("none" for an empty collection), and removal by position.
- `Doctors`, `Appointments` and `Hospitals` each hold the record datatype and one class. The class keeps the record list as a `seq` field that create, update and delete reassign.

The loops of the source are methods with loop invariants, each proved against a specification function:

- the lookup loop: `Ids.FindFirst` against `FirstIndex`;
- the id probe: `Ids.NextId` against `NextNumber`;
- the text loops: `Records.Render` against `Rendered`;
- the JSON loops: `Records.CollectMatches` against `Select`;
- the nested hospital loops: against `Doctors.ByHospital`.

The two doctor filters of the appointments resource behave differently. The text variant (`getAppointmentsByDoctor`) keeps appointments whose doctor id *contains* the query. The JSON variant keeps only those whose doctor id *equals* the query ignoring case. The model keeps both as written, and `Appointments.DoctorJsonWithinText` proves that the JSON matches are exactly the text matches that also equal the query.

## Model

| member | source | states |
|---|---|---|
| CaseFold.ContainsIffOccurs | src/main/java/lk/sliit/dcws/AppointmentResource.java:77 | the recursive `contains` holds exactly when the query occurs at some offset of the field |
| CaseFold.PoliciesNest | src/main/java/lk/sliit/dcws/AppointmentResource.java:126-144 | an `equalsIgnoreCase` match is a `startsWith` match, and a `startsWith` match is a `contains` match |
| CaseFold.QueryCaseIrrelevant | src/main/java/lk/sliit/dcws/DoctorResource.java:80 | every matching policy upper-cases both sides, so two queries that differ only in case select the same fields |
| CaseFold.JayaPrefixExample | src/main/java/lk/sliit/dcws/DoctorResource.java:142-144 | the last-name prefix query "jaya" finds Jayasekara and Jayaratna but not Wijaya |
| CaseFold.JayaSubstringExample | src/main/java/lk/sliit/dcws/AppointmentResource.java:60-61 | the substring policy with the same query also finds Wijaya |
| Ids.DecimalRoundTrip | src/main/java/lk/sliit/dcws/HospitalResource.java:189 | the decimal digits of n are non-empty, all digits, and read back as n |
| Ids.PaddedRoundTrip | src/main/java/lk/sliit/dcws/HospitalResource.java:189 | the "000" pattern pads to at least three digits, and the padded digits read back as n |
| Ids.FormattedReadsBack | src/main/java/lk/sliit/dcws/HospitalResource.java:189-197 | any id equal ignoring case to the formatted id of n parses back to n |
| Ids.FormatInjective | src/main/java/lk/sliit/dcws/HospitalResource.java:189-197 | two different numbers never format to ids that are equal ignoring case |
| Ids.FirstIndex | src/main/java/lk/sliit/dcws/HospitalResource.java:174-184 | the result is the first position whose id equals the query ignoring case, and it is absent exactly when no stored id matches |
| Ids.FindFirst | src/main/java/lk/sliit/dcws/HospitalResource.java:174-184 | the lookup loop returns that first matching position, or none |
| Ids.AppendUnused | src/main/java/lk/sliit/dcws/HospitalResource.java:110-118 | appending an unused id keeps the ids pairwise distinct ignoring case, and a lookup of that id then finds the new last record |
| Ids.RemoveKeepsDistinct | src/main/java/lk/sliit/dcws/HospitalResource.java:159-162 | removing one id keeps the remaining ids pairwise distinct |
| Ids.CountStep | src/main/java/lk/sliit/dcws/HospitalResource.java:194-201 | advancing the probe past a taken number strictly lowers the count of stored ids numbered at or above the probe; this is why the `while(true)` loop ends |
| Ids.NextFrom | src/main/java/lk/sliit/dcws/HospitalResource.java:194-201 | the probe from t ends at the least n ≥ t whose id is unused, after at most as many steps as stored ids numbered ≥ t |
| Ids.NextNumber | src/main/java/lk/sliit/dcws/HospitalResource.java:191-201 | the chosen number is the least unused one from size + 1 on, and it lies between size + 1 and 2·size + 1 |
| Ids.ProbeStep | src/main/java/lk/sliit/dcws/HospitalResource.java:196-200 | when the lookup of the test id finds nothing the probe ends there; otherwise the probe moves to the next number and the measure drops |
| Ids.NextId | src/main/java/lk/sliit/dcws/HospitalResource.java:187-202 | the probe loop returns the formatted id of that least unused number |
| Ids.FirstIdOfEmpty | src/main/java/lk/sliit/dcws/HospitalResource.java:191 | on an empty list the first id is the prefix followed by "001" |
| Records.Select | src/main/java/lk/sliit/dcws/DoctorResource.java:95-107 | the matches are at most the list's length, every match is a stored record that passes the filter, and every such record is a match |
| Records.SelectMultiplicity | src/main/java/lk/sliit/dcws/DoctorResource.java:95-107 | each passing record appears among the matches exactly as often as it is stored, and a failing one never appears |
| Records.SelectAppend | src/main/java/lk/sliit/dcws/DoctorResource.java:100-104 | selection keeps list order: the matches of a + b are those of a followed by those of b |
| Records.SelectEverything | src/main/java/lk/sliit/dcws/DoctorResource.java:41-44 | the unfiltered listing selects the whole list |
| Records.SelectNarrower | src/main/java/lk/sliit/dcws/AppointmentResource.java:126-144 | filtering the results of a wider filter by a narrower one gives the narrower filter's results |
| Records.SelectAgree | src/main/java/lk/sliit/dcws/DoctorResource.java:80 | two filters that agree on every record select the same records |
| Records.CollectMatches | src/main/java/lk/sliit/dcws/DoctorResource.java:95-107 | the JSON loop builds exactly the in-order selection |
| Records.LinesStartWithFirst | src/main/java/lk/sliit/dcws/DoctorResource.java:41-44 | the text of several records starts with the line of the first |
| Records.NoneIffEmpty | src/main/java/lk/sliit/dcws/DoctorResource.java:36-45 | when every line starts with "ID = ", the text answer is "none" exactly when the collection is empty, and a non-empty collection with no match answers "" |
| Records.Render | src/main/java/lk/sliit/dcws/DoctorResource.java:71-84 | the text loop builds "none" for an empty collection, followed by one line plus separator per match in list order |
| Records.RemoveAt | src/main/java/lk/sliit/dcws/DoctorResource.java:306 | removal keeps the records before the position and shifts those after it down by one |
| Records.RemoveAtMultiset | src/main/java/lk/sliit/dcws/DoctorResource.java:306 | removal takes away exactly one copy of the removed record |
| Doctors.ByHospitalMultiplicity | src/main/java/lk/sliit/dcws/DoctorResource.java:222-240 | a doctor appears in the hospital listing once per stored copy per hospital entry that contains the query |
| Doctors.RepeatMultiset | src/main/java/lk/sliit/dcws/DoctorResource.java:231-234 | k additions of one doctor add k copies of it and nothing else |
| Doctors.FiltersIgnoreQueryCase | src/main/java/lk/sliit/dcws/DoctorResource.java:152-165 | the specialization, last-name and hospital filters give the same doctors for two queries that are equal ignoring case |
| Doctors.ByHospitalIgnoresQueryCase | src/main/java/lk/sliit/dcws/DoctorResource.java:199-216 | the hospital listing is the same for queries that are equal ignoring case |
| Doctors.MatchCountIgnoresQueryCase | src/main/java/lk/sliit/dcws/DoctorResource.java:208-212 | the number of matching hospital entries is the same for queries that are equal ignoring case |
| Doctors.FilterTextNoneIffEmpty | src/main/java/lk/sliit/dcws/DoctorResource.java:152-165 | getDoctors and the filtered text listings answer "none" exactly when there are no doctors; no match gives "" |
| Doctors.DoctorResource.constructor | src/main/java/lk/sliit/dcws/DoctorResource.java:24 | the resource starts with no doctors, so the stored ids are trivially distinct ignoring case; create and delete keep them so |
| Doctors.DoctorResource.GetDoctors | src/main/java/lk/sliit/dcws/DoctorResource.java:34-46 | "none" or one full line per doctor in list order |
| Doctors.DoctorResource.GetDoctorsJson | src/main/java/lk/sliit/dcws/DoctorResource.java:56-60 | all stored doctors in list order |
| Doctors.DoctorResource.GetDoctorsBySpecialization | src/main/java/lk/sliit/dcws/DoctorResource.java:71-84 | the text of the doctors whose specialization starts with the query ignoring case |
| Doctors.DoctorResource.GetDoctorsBySpecializationJson | src/main/java/lk/sliit/dcws/DoctorResource.java:95-107 | exactly those doctors, in list order |
| Doctors.DoctorResource.GetDoctorsByLastName | src/main/java/lk/sliit/dcws/DoctorResource.java:152-165 | the text of the doctors whose last name starts with the query ignoring case |
| Doctors.DoctorResource.GetDoctorsByLastNameJson | src/main/java/lk/sliit/dcws/DoctorResource.java:172-184 | exactly those doctors, in list order |
| Doctors.DoctorResource.GetDoctorsByHospital | src/main/java/lk/sliit/dcws/DoctorResource.java:199-216 | the nested loop emits a line per doctor per hospital entry containing the query, or "none" for an empty list |
| Doctors.DoctorResource.GetDoctorsByHospitalJson | src/main/java/lk/sliit/dcws/DoctorResource.java:222-240 | the nested loop collects the same doctors, with the same repetitions |
| Doctors.DoctorResource.FindDoctor | src/main/java/lk/sliit/dcws/DoctorResource.java:322-332 | the first doctor whose id equals the query ignoring case; none exactly when no doctor matches |
| Doctors.DoctorResource.GetDoctor | src/main/java/lk/sliit/dcws/DoctorResource.java:114-121 | "None" exactly when no doctor matches, otherwise the id and name line of the first match |
| Doctors.DoctorResource.GetDoctorJson | src/main/java/lk/sliit/dcws/DoctorResource.java:128-140 | an empty array exactly when no doctor matches, otherwise the first match alone |
| Doctors.DoctorResource.NextDoctorId | src/main/java/lk/sliit/dcws/DoctorResource.java:338-353 | the "doc" id of the least unused number from size + 1 on, and that id is unused |
| Doctors.DoctorResource.CreateDoctor | src/main/java/lk/sliit/dcws/DoctorResource.java:256-264 | the doctor is appended with the fresh id and answers 201 with the POST message; the new id is unused before and found at the end after; distinct ids stay distinct |
| Doctors.DoctorResource.UpdateDoctor | src/main/java/lk/sliit/dcws/DoctorResource.java:275-290 | renames only the first match and answers 200 "old renamed to new"; otherwise nothing changes and it answers 404 with the body's id; ids never change |
| Doctors.DoctorResource.DeleteDoctor | src/main/java/lk/sliit/dcws/DoctorResource.java:300-315 | removes only the first match, keeping the others in order, and answers 200 "Deleted Doctor name"; otherwise nothing changes and it answers 404; distinct ids stay distinct |
| Appointments.DoctorJsonWithinText | src/main/java/lk/sliit/dcws/AppointmentResource.java:117-149 | the JSON doctor matches are the text doctor matches that also equal the query, so each occurs at most as often as among the text matches |
| Appointments.FiltersIgnoreQueryCase | src/main/java/lk/sliit/dcws/AppointmentResource.java:77-144 | the patient-name filter and both doctor filters select the same appointments for two queries that are equal ignoring case |
| Appointments.LinesStartWithId | src/main/java/lk/sliit/dcws/AppointmentResource.java:41-44 | each of the three appointment lines starts with "ID = " |
| Appointments.TextNoneIffEmpty | src/main/java/lk/sliit/dcws/AppointmentResource.java:36-46 | the full listing and both filtered text listings answer "none" exactly when there are no appointments |
| Appointments.AppointmentResource.constructor | src/main/java/lk/sliit/dcws/AppointmentResource.java:25 | the resource starts with no appointments, so the stored ids are trivially distinct ignoring case; create and delete keep them so |
| Appointments.AppointmentResource.GetAppointments | src/main/java/lk/sliit/dcws/AppointmentResource.java:36-46 | "none" or one full line per appointment in list order |
| Appointments.AppointmentResource.GetAppointmentsJson | src/main/java/lk/sliit/dcws/AppointmentResource.java:50-54 | all stored appointments in list order |
| Appointments.AppointmentResource.GetAppointmentsByPatientName | src/main/java/lk/sliit/dcws/AppointmentResource.java:68-81 | the text of the appointments whose patient name contains the query ignoring case |
| Appointments.AppointmentResource.GetAppointmentsByPatientNameJson | src/main/java/lk/sliit/dcws/AppointmentResource.java:88-100 | exactly those appointments, in list order |
| Appointments.AppointmentResource.GetAppointmentsByDoctor | src/main/java/lk/sliit/dcws/AppointmentResource.java:117-130 | the text of the appointments whose doctor id contains the query ignoring case |
| Appointments.AppointmentResource.GetAppointmentsByDoctorJson | src/main/java/lk/sliit/dcws/AppointmentResource.java:137-149 | the appointments whose doctor id equals the query ignoring case, in list order |
| Appointments.AppointmentResource.FindAppointment | src/main/java/lk/sliit/dcws/AppointmentResource.java:229-239 | the first appointment whose id equals the query ignoring case; none exactly when no appointment matches |
| Appointments.AppointmentResource.NextAppointmentId | src/main/java/lk/sliit/dcws/AppointmentResource.java:241-256 | the "app" id of the least unused number from size + 1 on, and that id is unused |
| Appointments.AppointmentResource.CreateAppointment | src/main/java/lk/sliit/dcws/AppointmentResource.java:161-169 | the appointment is appended with the fresh id and answers 201 with the POST message listing every field; the new id is then found at the end |
| Appointments.AppointmentResource.UpdateAppointment | src/main/java/lk/sliit/dcws/AppointmentResource.java:181-197 | renames the patient of the first match only and answers 200; otherwise it answers 404 with the body's id and changes nothing |
| Appointments.AppointmentResource.DeleteAppointment | src/main/java/lk/sliit/dcws/AppointmentResource.java:207-222 | removes the first match only and answers 200 "Deleted Appointment patient"; otherwise it answers 404 and changes nothing |
| Hospitals.TextNoneIffEmpty | src/main/java/lk/sliit/dcws/HospitalResource.java:34-44 | getHospitals answers "none" exactly when there are no hospitals |
| Hospitals.HospitalResource.constructor | src/main/java/lk/sliit/dcws/HospitalResource.java:24 | the resource starts with no hospitals, so the stored ids are trivially distinct ignoring case; create and delete keep them so |
| Hospitals.HospitalResource.GetHospitals | src/main/java/lk/sliit/dcws/HospitalResource.java:34-44 | "none" or one id and name line per hospital in list order |
| Hospitals.HospitalResource.GetHospitalsJson | src/main/java/lk/sliit/dcws/HospitalResource.java:54-58 | all stored hospitals in list order |
| Hospitals.HospitalResource.FindHospital | src/main/java/lk/sliit/dcws/HospitalResource.java:174-184 | the first hospital whose id equals the query ignoring case; none exactly when no hospital matches |
| Hospitals.HospitalResource.GetHospital | src/main/java/lk/sliit/dcws/HospitalResource.java:69-76 | "None" exactly when no hospital matches, otherwise the line of the first match |
| Hospitals.HospitalResource.GetHospitalJson | src/main/java/lk/sliit/dcws/HospitalResource.java:87-99 | an empty array exactly when no hospital matches, otherwise the first match alone |
| Hospitals.HospitalResource.NextHospitalId | src/main/java/lk/sliit/dcws/HospitalResource.java:187-202 | the "hos" id of the least unused number from size + 1 on, and that id is unused |
| Hospitals.HospitalResource.CreateHospital | src/main/java/lk/sliit/dcws/HospitalResource.java:110-118 | the hospital is appended with the fresh id and answers 201 "POST Hospital: name with new ID: id"; the new id is then found at the end; distinct ids stay distinct |
| Hospitals.HospitalResource.UpdateHospital | src/main/java/lk/sliit/dcws/HospitalResource.java:130-145 | renames only the first match and answers 200; otherwise it answers 404 with the body's id and changes nothing; ids never change |
| Hospitals.HospitalResource.DeleteHospital | src/main/java/lk/sliit/dcws/HospitalResource.java:156-171 | removes only the first match and answers 200 "Deleted Hospital name"; otherwise it answers 404 and changes nothing |
| Hospitals.FirstHospitalIsHos001 | src/main/java/lk/sliit/dcws/HospitalResource.java:110-118 | the first hospital created on a fresh resource gets "hos001", the 201 response reads "POST Hospital: General with new ID: hos001", and it is the only one stored |
| Hospitals.GapIsNotReused | src/main/java/lk/sliit/dcws/HospitalResource.java:191-201 | after creating two hospitals, deleting hos001 and creating again, the ids are hos002 and hos003: the probe starts at the size plus one, and the gap is not reused |
| Hospitals.SecondId | src/main/java/lk/sliit/dcws/HospitalResource.java:191-198 | with only hos001 stored, the probe settles on 2, formatted as "hos002" |
| Hospitals.ThirdIdAfterGap | src/main/java/lk/sliit/dcws/HospitalResource.java:191-200 | with only hos002 stored, the probe starts at 2, finds it taken, and settles on 3 ("hos003") |

## Left out

- HTTP and JAX-RS plumbing: paths, media types, and the `Response` builder. A response is modelled as a status and a message only.
- JSON serialization and deserialization of request bodies and results. A structured result is the `seq` of records.
- GetDoctorsJson, GetAppointmentsJson, GetHospitalsJson and the filtered JSON listings: `toArray(new X[1])` returns a one-element array holding `null` when the list is empty. The model returns the empty sequence instead, because that is Java array semantics and not the resource's logic.
- Console logging (`System.out.println`) is left out because it has no effect on state or results.
- `System.getProperty("line.separator")` is a constructor parameter of each resource class.
- `@Singleton` lifetime and concurrent requests: each operation is modelled as atomic.
- Reference aliasing: update changes the stored record in place, and the model replaces the record at its position. Returned records are values, so later updates do not show through them.
- Case folding is ASCII only: `toUpperCase` and `equalsIgnoreCase` over full Unicode, with locale rules, are not modelled.
- `DecimalFormat` locale details: grouping separators never appear for the "000" pattern, and the model formats plain decimal digits.
- Null fields: Java would print a null name as "null" and throw on a null query, specialization or hospital list. All fields are modelled as present strings.
- NextId does not model Java `int` overflow of the probe counter. The number is unbounded, and the probe is proved to stop by 2·size + 1.
- Appointment date and number are the strings they print as.
- The Doctor, Appointment and Hospital entity classes are not part of this model beyond their fields.
